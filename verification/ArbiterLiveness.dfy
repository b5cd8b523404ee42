/** Whole runs of the arbiter, continued: one life per ticket, draining, and when a wakeup can be missed. */
module ArbiterLiveness {
  import opened ArbiterModel
  import opened ArbiterInvariants
  import opened ArbiterSelection
  import opened ArbiterRuns

  // ---------- one life per ticket ----------

  function Rank(p: Phase): nat {
    match p
    case Unknown => 0
    case Fresh => 1
    case Waiting => 2
    case Holding(_) => 3
    case Finished => 4
  }

  /** A grant can only follow a wait, and an end only a wait or a hold. */
  ghost predicate RightMoment(log: seq<Event>, e: Event) {
    var p := PhaseOf(log, e.id);
    match e
    case Issued(_) => p == Unknown
    case Enqueued(_) => p == Fresh
    case Granted(_, _, _) => p == Waiting
    case Touched(_, lt, _) => p == Holding(lt)
    case Cancelled(_) => p == Waiting
    case Released(_) => p.Holding?
    case Forced(_, _) => p.Holding? && p.leaseType != BarrierLease
  }

  /** Each step writes at most one entry, and at the right moment of its ticket's life. */
  lemma StepAtRightMoment(o: Options, s: State, step: Step)
    requires InvIds(s) && Enabled(s, step)
    ensures var log' := Next(o, s, step).log;
            log' == s.log
            || (|log'| > 0 && log' == s.log + [log'[|log'| - 1]] && RightMoment(s.log, log'[|log'| - 1]))
  {
    hide CanAcquire, RemoveAt, SetHolders, DistinctTickets, HoldsInPhase, Touch, Release, Expire, Cancel, Grant,
      Issue, Enqueue;
    match step
    case DoTouch(id, lt, now) => HolderMoment(o, s, step, id, lt);
    case DoRelease(id, lt, now) => HolderMoment(o, s, step, id, lt);
    case DoExpire(id, lt, now) => HolderMoment(o, s, step, id, lt);
    case _ => WaiterMoment(o, s, step);
  }

  lemma HolderMoment(o: Options, s: State, step: Step, id: nat, lt: LeaseType)
    requires InvIds(s) && (step.DoTouch? || step.DoRelease? || step.DoExpire?) && step.id == id && step.leaseType == lt
    ensures var log' := Next(o, s, step).log;
            log' == s.log
            || (|log'| > 0 && log' == s.log + [log'[|log'| - 1]] && RightMoment(s.log, log'[|log'| - 1]))
  {
    hide RemoveAt, SetHolders, DistinctHolds, DistinctTickets;
    assert HoldsInPhase(s, lt);
  }

  lemma WaiterMoment(o: Options, s: State, step: Step)
    requires InvIds(s) && Enabled(s, step) && !step.DoTouch? && !step.DoRelease? && !step.DoExpire?
    ensures var log' := Next(o, s, step).log;
            log' == s.log
            || (|log'| > 0 && log' == s.log + [log'[|log'| - 1]] && RightMoment(s.log, log'[|log'| - 1]))
  {
    hide CanAcquire, RemoveAt, SetHolders, DistinctTickets, HoldsInPhase, Touch, Release, Expire;
  }

  /** So a life only moves forward: no ticket is granted, cancelled or ended twice. */
  lemma {:induction false} LifeMovesForward(o: Options, s: State, steps: seq<Step>, id: nat)
    requires ValidOptions(o) && Inv(o, s) && Legal(o, s, steps)
    ensures Rank(PhaseOf(s.log, id)) <= Rank(PhaseOf(Run(o, s, steps).log, id))
    decreases |steps|
  {
    hide Next, InvIds, Exclusion, NoLostWakeup, Conserved, Watchdog;
    if steps != [] {
      var s' := Next(o, s, steps[0]);
      StepAtRightMoment(o, s, steps[0]);
      if s'.log != s.log { PhaseAppend(s.log, s'.log[|s'.log| - 1]); }
      NextKeepsInv(o, s, steps[0]);
      LifeMovesForward(o, s', steps[1..], id);
    }
  }

  /** A late release, touch or timer of a finished lease changes nothing but the clock, however long after. */
  lemma LateStepsDoNothing(o: Options, s: State, steps: seq<Step>, id: nat, lt: LeaseType, now: int)
    requires ValidOptions(o) && Reachable(o, s) && Legal(o, s, steps) && PhaseOf(s.log, id) == Finished
    ensures var s' := Run(o, s, steps);
            Release(s', id, lt, now) == Touch(o, s', id, lt, now) == Expire(s', id, lt, now) == s'.(clock := now)
            && Cancel(s', id, now) == s'.(clock := now)
  {
    hide Exclusion, NoLostWakeup, Conserved, Watchdog, InvIds, Release, Touch, Expire, Cancel, PhaseOf, Legal;
    Safety(o, s);
    RunKeepsInv(o, s, steps);
    LifeMovesForward(o, s, steps, id);
    FinishedIsNowhere(o, Run(o, s, steps), id, lt, now);
  }

  lemma FinishedIsNowhere(o: Options, s: State, id: nat, lt: LeaseType, now: int)
    requires InvIds(s) && PhaseOf(s.log, id) == Finished
    ensures Release(s, id, lt, now) == Touch(o, s, id, lt, now) == Expire(s, id, lt, now) == s.(clock := now)
    ensures Cancel(s, id, now) == s.(clock := now)
  {
    assert HoldsInPhase(s, lt);
  }

  lemma RemovalKeepsOthers(hs: seq<Hold>, i: nat, k: nat)
    requires i < |hs| && k < |hs| && i != k
    ensures hs[k] in RemoveAt(hs, i)
  {
    assert RemoveAt(hs, i)[if k < i then k else k - 1] == hs[k];
  }

  /** Ending one lease or barrier leaves every other holder where it was. */
  lemma ReleaseFreesOnlyItsOwn(s: State, id: nat, lt: LeaseType, now: int, l: LeaseType, k: nat)
    requires k < |Holders(s, l)| && Holders(s, l)[k].ticket.id != id
    ensures Holders(s, l)[k] in Holders(Release(s, id, lt, now), l)
  {
    var i := HoldIndex(Holders(s, l), id);
    if l == lt && i < |Holders(s, l)| { RemovalKeepsOthers(Holders(s, l), i, k); }
  }

  lemma ExpireFreesOnlyItsOwn(s: State, id: nat, lt: LeaseType, now: int, l: LeaseType, k: nat)
    requires k < |Holders(s, l)| && Holders(s, l)[k].ticket.id != id
    ensures Holders(s, l)[k] in Holders(Expire(s, id, lt, now), l)
  {
    var i := HoldIndex(Holders(s, l), id);
    if l == lt && i < |Holders(s, l)| { RemovalKeepsOthers(Holders(s, l), i, k); }
  }

  // ---------- draining ----------

  /** Some holder, when there is one. */
  lemma SomeHolder(s: State) returns (lt: LeaseType)
    requires !Nothing(s)
    ensures Holders(s, lt) != []
  {
    lt := if s.sessions != [] then Session else if s.oneshots != [] then OneShot
          else if s.transports != [] then Transport else BarrierLease;
  }

  /** From every reachable state the arbiter can be brought to rest by releasing holders and letting waiters
      retry: there is no deadlock. */
  lemma {:induction false} CanDrain(o: Options, s: State) returns (steps: seq<Step>)
    requires ValidOptions(o) && Inv(o, s)
    ensures Legal(o, s, steps)
    ensures var s' := Run(o, s, steps); Nothing(s') && s'.queue == []
    decreases ActiveCount(s) + 2 * |s.queue|
  {
    hide Next, Enabled, Inv, CanAcquire;
    steps := [];
    if !Nothing(s) || s.queue != [] {
      var step;
      if !Nothing(s) { step := ReleaseOne(o, s); } else { step := GrantOne(o, s); }
      NextKeepsInv(o, s, step);
      var rest := CanDrain(o, Next(o, s, step));
      steps := [step] + rest;
      assert steps[1..] == rest;
    }
  }

  lemma ReleaseOne(o: Options, s: State) returns (step: Step)
    requires !Nothing(s)
    ensures Enabled(s, step)
    ensures ActiveCount(Next(o, s, step)) == ActiveCount(s) - 1 && Next(o, s, step).queue == s.queue
  {
    var lt := SomeHolder(s);
    step := DoRelease(Holders(s, lt)[0].ticket.id, lt, s.clock);
  }

  lemma GrantOne(o: Options, s: State) returns (step: Step)
    requires ValidOptions(o) && Inv(o, s) && Nothing(s) && s.queue != []
    ensures Enabled(s, step)
    ensures ActiveCount(Next(o, s, step)) == ActiveCount(s) + 1 && |Next(o, s, step).queue| == |s.queue| - 1
  {
    hide CanAcquire, Exclusion, NoLostWakeup, Conserved, Watchdog, HoldsInPhase;
    var i := SomeTicketPasses(o, s, s.clock);
    IndexIs(s.queue, i);
    step := DoTry(s.queue[i].id, s.clock);
    assert Next(o, s, step) == Grant(o, s, i, s.clock);
  }

  // ---------- wakeups and the ageing threshold ----------

  ghost predicate SameAgeing(s: State, at: int, now: int) {
    forall i :: 0 <= i < |s.queue| ==> Aged(s.queue[i], at) == Aged(s.queue[i], now)
  }

  /** Time enters the tests only through who has aged. */
  lemma TestsFollowAgeing(o: Options, s: State, t: Ticket, at: int, now: int)
    requires SameAgeing(s, at, now)
    ensures CanAcquire(o, s, t, at) == CanAcquire(o, s, t, now)
  {
    var n := ScanEnd(o, s, |s.queue|);
    forall g ensures FirstInGrade(o, s, at, g, n) == FirstInGrade(o, s, now, g, n) {}
  }

  /** A sleeper whose ticket could be granted now has missed a wakeup only if some queued ticket crossed the
      ageing threshold since it went to sleep. */
  lemma SleeperCannotPass(o: Options, s: State, i: nat, now: int)
    requires ValidOptions(o) && Reachable(o, s) && i < |s.queue| && Asleep(s, s.queue[i].id)
    requires SameAgeing(s, s.parked[s.queue[i].id].at, now)
    ensures !CanAcquire(o, s, s.queue[i], now)
  {
    Safety(o, s);
    TestsFollowAgeing(o, s, s.queue[i], s.parked[s.queue[i].id].at, now);
  }

  /** Exactly who can miss a wakeup: among the sleepers, at any later instant, the test of one has become true if and
      only if it is the first aged transport other than an AKA and no session or one-shot is active. So never an AKA, a
      session, a one-shot or a barrier; and the one it is has aged since it last tried. */
  lemma MissedWakeupExactly(o: Options, s: State, i: nat, now: int)
    requires ValidOptions(o) && Reachable(o, s) && now >= s.clock && i < |s.queue| && Asleep(s, s.queue[i].id)
    ensures CanAcquire(o, s, s.queue[i], now) <==>
            s.sessions == [] && s.oneshots == [] && FirstOfGrade(o, s, now, AgedNonAKA, i)
    ensures CanAcquire(o, s, s.queue[i], now) ==> !Aged(s.queue[i], s.parked[s.queue[i].id].at)
  {
    Safety(o, s);
    var at := s.parked[s.queue[i].id].at;
    assert !CanAcquire(o, s, s.queue[i], at);
    if FirstOfGrade(o, s, now, AgedNonAKA, i) && s.sessions == [] && s.oneshots == [] {
      FirstAgedPasses(o, s, i, now);
    }
    if CanAcquire(o, s, s.queue[i], now) { OnlyAgeingHelps(o, s, i, at, now); }
    if FirstOfGrade(o, s, at, AgedNonAKA, i) && s.sessions == [] && s.oneshots == [] {
      FirstAgedPasses(o, s, i, at);
    }
  }

  lemma FirstAgedPasses(o: Options, s: State, i: nat, now: int)
    requires InvIds(s) && s.sessions == [] && s.oneshots == [] && FirstOfGrade(o, s, now, AgedNonAKA, i)
    ensures CanAcquire(o, s, s.queue[i], now)
  {
    SelectionRule(o, s, now, i);
    assert !StopsScan(o, s, s.queue[i]) && Eligible(o, s, s.queue[i]);
    LeaseKind(s, i);
    PendingBarrierTestIsImplied(o, s, i, now);
  }

  lemma LeaseKind(s: State, i: nat)
    requires InvIds(s) && i < |s.queue| && s.queue[i].leaseType == Transport
    ensures s.queue[i].kind == LeaseWait
  {
  }

  /** A test that fails at one instant and passes later is that of the first aged transport, and its time has come. */
  lemma OnlyAgeingHelps(o: Options, s: State, i: nat, at: int, now: int)
    requires InvIds(s) && i < |s.queue| && at <= now
    requires CanAcquire(o, s, s.queue[i], now) && !CanAcquire(o, s, s.queue[i], at)
    ensures s.sessions == [] && s.oneshots == [] && FirstOfGrade(o, s, now, AgedNonAKA, i)
    ensures Aged(s.queue[i], at) ==> FirstOfGrade(o, s, at, AgedNonAKA, i)
  {
    assert s.queue[i].kind == LeaseWait && s.queue[i].leaseType == Transport;
    SelectionRule(o, s, now, i);
    SelectionRule(o, s, at, i);
    assert forall t :: InGrade(o, s, at, AgedNonAKA, t) ==> InGrade(o, s, now, AgedNonAKA, t);
    forall g | g != AgedNonAKA && FirstOfGrade(o, s, now, g, i) ensures FirstOfGrade(o, s, at, g, i) {}
    assert GradeEmpty(o, s, now, AgedNonAKA) ==> GradeEmpty(o, s, at, AgedNonAKA);
    assert GradeEmpty(o, s, now, AKA) ==> GradeEmpty(o, s, at, AKA);
  }

  ghost predicate AllAsleep(s: State) {
    forall i :: 0 <= i < |s.queue| ==> Asleep(s, s.queue[i].id)
  }

  /** So when everybody sleeps at an idle arbiter, at every later instant one ticket could be granted and no other: the
      first aged transport other than an AKA, which had not aged when it last tried. */
  lemma StalledTicket(o: Options, s: State, now: int) returns (i: nat)
    requires ValidOptions(o) && Reachable(o, s) && Nothing(s) && s.queue != [] && AllAsleep(s) && now >= s.clock
    ensures i < |s.queue| && FirstOfGrade(o, s, now, AgedNonAKA, i)
    ensures !Aged(s.queue[i], s.parked[s.queue[i].id].at)
    ensures forall j :: 0 <= j < |s.queue| ==> (CanAcquire(o, s, s.queue[j], now) <==> j == i)
  {
    hide CanAcquire, InvIds, Exclusion, NoLostWakeup, Conserved, Watchdog;
    Safety(o, s);
    i := SomeTicketPasses(o, s, now);
    MissedWakeupExactly(o, s, i, now);
    forall j | 0 <= j < |s.queue| ensures CanAcquire(o, s, s.queue[j], now) <==> j == i {
      assert Asleep(s, s.queue[j].id);
      MissedWakeupExactly(o, s, j, now);
    }
  }

  /** An idle arbiter with everybody asleep is possible in one way only: two waiters tried at instants on
      either side of some ticket's ageing threshold. */
  lemma StallNeedsAgeing(o: Options, s: State)
    requires ValidOptions(o) && Reachable(o, s) && Nothing(s) && s.queue != [] && AllAsleep(s)
    ensures exists i, j :: (
      0 <= i < |s.queue| && 0 <= j < |s.queue|
      && !SameAgeing(s, s.parked[s.queue[i].id].at, s.parked[s.queue[j].id].at))
  {
    Safety(o, s);
    assert Asleep(s, s.queue[0].id);
    var i := SomeTicketPasses(o, s, s.parked[s.queue[0].id].at);
    assert Asleep(s, s.queue[i].id);
    if SameAgeing(s, s.parked[s.queue[i].id].at, s.parked[s.queue[0].id].at) {
      SleeperCannotPass(o, s, i, s.parked[s.queue[0].id].at);
    }
  }

  /** A plain transport `a` queued before an AKA transport `k`, nothing active. */
  ghost predicate PlainThenAKA(s: State, a: Ticket, k: Ticket) {
    s.queue == [a, k] && a.id != k.id && Nothing(s)
    && a.kind == k.kind == LeaseWait && a.leaseType == k.leaseType == Transport && a.scope == k.scope == Exclusive
    && a.apduClass != USIMAKA && k.apduClass == USIMAKA
  }

  lemma EachYieldsToTheOther(o: Options, s: State, a: Ticket, k: Ticket, now: int)
    requires InvIds(s) && PlainThenAKA(s, a, k)
    ensures !Aged(a, now) ==> !CanAcquire(o, s, a, now)
    ensures Aged(a, now) ==> !CanAcquire(o, s, k, now)
  {
    SelectionRule(o, s, now, 0);
    SelectionRule(o, s, now, 1);
    assert Eligible(o, s, s.queue[0]) && Eligible(o, s, s.queue[1]);
    assert Scanned(o, s, 0) && Scanned(o, s, 1);
    assert InGrade(o, s, now, AKA, s.queue[1]);
    assert Aged(a, now) ==> InGrade(o, s, now, AgedNonAKA, s.queue[0]);
  }

  /** That way is real: if the plain waiter retries just before its threshold and the AKA waiter just after,
      both go back to sleep on the same notification and the free card is granted to nobody. */
  lemma AgeingStalls(o: Options, s: State, a: Ticket, k: Ticket, t1: int, t2: int)
    requires InvIds(s) && PlainThenAKA(s, a, k) && !Aged(a, t1) && Aged(a, t2)
    ensures var s' := Next(o, Next(o, s, DoTry(a.id, t1)), DoTry(k.id, t2));
            Nothing(s') && s'.queue == [a, k] && AllAsleep(s')
  {
    hide InvIds, CanAcquire, Aged;
    EachYieldsToTheOther(o, s, a, k, t1);
    TwoDistinct(s, a, k);
    var s1 := Park(s, a.id, t1);
    assert s1 == Next(o, s, DoTry(a.id, t1));
    TryKeepsIds(o, s, a.id, t1);
    EachYieldsToTheOther(o, s1, a, k, t2);
    assert Next(o, s1, DoTry(k.id, t2)) == Park(s1, k.id, t2);
  }

  lemma TwoDistinct(s: State, a: Ticket, k: Ticket)
    requires PlainThenAKA(s, a, k)
    ensures QueueIndex(s.queue, a.id) == 0 && QueueIndex(s.queue, k.id) == 1
  {
  }

  // ---------- the stall is reachable ----------

  lemma {:induction false} RunConcat(o: Options, s: State, xs: seq<Step>, ys: seq<Step>)
    requires Legal(o, s, xs) && Legal(o, Run(o, s, xs), ys)
    ensures Legal(o, s, xs + ys) && Run(o, s, xs + ys) == Run(o, Run(o, s, xs), ys)
    decreases |xs|
  {
    hide Next, Enabled;
    if xs == [] {
      assert xs + ys == ys;
    } else {
      RunConcat(o, Next(o, s, xs[0]), xs[1..], ys);
      assert (xs + ys)[1..] == xs[1..] + ys;
    }
  }

  lemma ReachableNext(o: Options, s: State, step: Step)
    requires Reachable(o, s) && Enabled(s, step)
    ensures Reachable(o, Next(o, s, step))
  {
    var xs :| Legal(o, Init(), xs) && Run(o, Init(), xs) == s;
    assert [step][1..] == [];
    assert Run(o, s, [step]) == Run(o, Next(o, s, step), []);
    RunConcat(o, Init(), xs, [step]);
    assert Legal(o, Init(), xs + [step]) && Run(o, Init(), xs + [step]) == Next(o, s, step);
  }

  lemma InitReachable(o: Options)
    ensures Reachable(o, Init())
  {
    assert Legal(o, Init(), []) && Run(o, Init(), []) == Init();
  }

  /** A caller takes a ticket and joins the queue. */
  lemma Join(o: Options, s: State, r: Request) returns (t: Ticket, s': State)
    requires Reachable(o, s) && s.issued == {}
    ensures Reachable(o, s') && s'.issued == {}
    ensures t == LeaseTicket(s.seqNo + 1, r, Transport, s.clock)
    ensures s'.queue == s.queue + [t] && s'.transports == s.transports && s'.sessions == s.sessions
    ensures s'.oneshots == s.oneshots && s'.barriers == s.barriers && s'.clock == s.clock
    ensures s'.seqNo == s.seqNo + 1
  {
    t := LeaseTicket(s.seqNo + 1, r, Transport, s.clock);
    ReachableNext(o, s, DoIssueLease(r, Transport, s.clock));
    var s1 := Next(o, s, DoIssueLease(r, Transport, s.clock));
    ReachableNext(o, s1, DoEnqueue(t, s.clock));
    s' := Next(o, s1, DoEnqueue(t, s.clock));
  }

  /** While an exclusive transport holds the card, no other exclusive transport passes. */
  lemma HeldOut(o: Options, s: State, i: nat, now: int)
    requires InvIds(s) && i < |s.queue| && s.queue[i].leaseType == Transport && s.queue[i].scope == Exclusive
    requires s.transports != []
    ensures !CanAcquire(o, s, s.queue[i], now)
  {
    if CanAcquire(o, s, s.queue[i], now) { GrantedFrom(o, s, i, now); }
  }

  const PLAIN := Request("download", true, EUICCWrite, 0, Exclusive)

  /** One exclusive transport holds the card and the queue is empty. */
  lemma OneHolds(o: Options) returns (s: State)
    requires ValidOptions(o)
    ensures Reachable(o, s) && s.issued == {} && s.queue == [] && s.seqNo == 1 && s.clock == 0
    ensures |s.transports| == 1 && s.transports[0].ticket.id == 1
    ensures s.sessions == [] && s.oneshots == [] && s.barriers == []
  {
    InitReachable(o);
    var h, s1 := Join(o, Init(), PLAIN);
    Safety(o, s1);
    var i := SomeTicketPasses(o, s1, 0);
    IndexIs(s1.queue, 0);
    ReachableNext(o, s1, DoTry(1, 0));
    s := Next(o, s1, DoTry(1, 0));
    assert s == Grant(o, s1, 0, 0);
  }

  /** Another exclusive transport joins behind it, tries in vain and goes to sleep. */
  lemma JoinAndSleep(o: Options, s: State, r: Request) returns (t: Ticket, s': State)
    requires ValidOptions(o) && Reachable(o, s) && s.issued == {} && s.transports != [] && r.scope == Exclusive
    ensures Reachable(o, s') && s'.issued == {}
    ensures t == LeaseTicket(s.seqNo + 1, r, Transport, s.clock)
    ensures s'.queue == s.queue + [t] && s'.transports == s.transports && s'.sessions == s.sessions
    ensures s'.oneshots == s.oneshots && s'.barriers == s.barriers && s'.clock == s.clock
    ensures s'.seqNo == s.seqNo + 1
  {
    var s1;
    t, s1 := Join(o, s, r);
    Safety(o, s1);
    HeldOut(o, s1, |s.queue|, s.clock);
    IndexIs(s1.queue, |s.queue|);
    ReachableNext(o, s1, DoTry(t.id, s.clock));
    s' := Next(o, s1, DoTry(t.id, s.clock));
    assert s' == Park(s1, t.id, s.clock);
  }

  /** A run of ordinary calls ends with the card free, two waiters queued, and nobody awake. */
  lemma StallIsReachable(o: Options)
    requires ValidOptions(o)
    ensures exists s :: Reachable(o, s) && Nothing(s) && |s.queue| == 2 && AllAsleep(s)
  {
    hide Reachable, CanAcquire, Exclusion, NoLostWakeup, Conserved, Watchdog, InvIds;
    var h := OneHolds(o);
    var a, s0 := JoinAndSleep(o, h, PLAIN);
    var k, s := JoinAndSleep(o, s0, PLAIN.(apduClass := USIMAKA));
    ReachableNext(o, s, DoRelease(1, Transport, 0));
    var s1 := Next(o, s, DoRelease(1, Transport, 0));
    assert s1.transports == [];
    Safety(o, s1);
    StallFrom(o, s1, a, k);
  }

  lemma StallFrom(o: Options, s: State, a: Ticket, k: Ticket)
    requires Reachable(o, s) && InvIds(s) && PlainThenAKA(s, a, k) && s.clock == 0 && a.enqueued == 0
    ensures exists t :: Reachable(o, t) && Nothing(t) && |t.queue| == 2 && AllAsleep(t)
  {
    hide Reachable, CanAcquire, InvIds, Try;
    var t1, t2 := TRANSPORT_PRIORITY_AGING - 1, TRANSPORT_PRIORITY_AGING;
    AgeingStalls(o, s, a, k, t1, t2);
    ReachableNext(o, s, DoTry(a.id, t1));
    assert Next(o, s, DoTry(a.id, t1)).clock == t1 by { TryClock(o, s, a.id, t1); }
    ReachableNext(o, Next(o, s, DoTry(a.id, t1)), DoTry(k.id, t2));
  }

  lemma TryClock(o: Options, s: State, id: nat, now: int)
    ensures Try(o, s, id, now).clock == now
  {
  }
}
