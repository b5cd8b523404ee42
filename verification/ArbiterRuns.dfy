/** Whole runs of the arbiter: safety, and who can be granted before a ticket that waits. */
module ArbiterRuns {
  import opened ArbiterModel
  import opened ArbiterInvariants
  import opened ArbiterSelection

  ghost predicate Inv(o: Options, s: State) {
    InvIds(s) && Exclusion(o, s) && NoLostWakeup(o, s) && Conserved(s) && Watchdog(o, s)
  }

  lemma InitIds()
    ensures InvIds(Init())
  {
    forall lt ensures HoldsInPhase(Init(), lt) {}
  }

  lemma InitExclusion(o: Options)
    requires ValidOptions(o)
    ensures Exclusion(o, Init())
  {
    assert Init().sessions == [];
  }

  lemma InitHolds(o: Options)
    requires ValidOptions(o)
    ensures Inv(o, Init())
  {
    InitIds();
    InitExclusion(o);
    assert Watchdog(o, Init());
  }

  lemma TryKeepsExclusion(o: Options, s: State, id: nat, now: int)
    requires ValidOptions(o) && InvIds(s) && Exclusion(o, s)
    ensures Exclusion(o, Try(o, s, id, now))
  {
    var i := QueueIndex(s.queue, id);
    if i < |s.queue| && CanAcquire(o, s, s.queue[i], now) {
      assert WellFormed(s.queue[i]);
      if s.queue[i].leaseType == Transport { GrantedFrom(o, s, i, now); }
      GrantKeepsExclusion(o, s, i, now);
    } else {
      ExclusionOfTickets(o, s, Try(o, s, id, now));
    }
  }

  lemma ReleaseKeepsExclusion(o: Options, s: State, id: nat, lt: LeaseType, now: int)
    requires Exclusion(o, s)
    ensures Exclusion(o, Release(s, id, lt, now))
  {
    var s' := Release(s, id, lt, now);
    var i := HoldIndex(Holders(s, lt), id);
    if i == |Holders(s, lt)| {
      ExclusionOfTickets(o, s, s');
    } else {
      DropKeepsExclusion(o, s, lt, i);
      ExclusionOfTickets(o, SetHolders(s, lt, RemoveAt(Holders(s, lt), i)), s');
    }
  }

  lemma ExpireKeepsExclusion(o: Options, s: State, id: nat, lt: LeaseType, now: int)
    requires Exclusion(o, s)
    ensures Exclusion(o, Expire(s, id, lt, now))
  {
    var s' := Expire(s, id, lt, now);
    if s' == s.(clock := now) {
      ExclusionOfTickets(o, s, s');
    } else {
      var i := HoldIndex(Holders(s, lt), id);
      DropKeepsExclusion(o, s, lt, i);
      ExclusionOfTickets(o, SetHolders(s, lt, RemoveAt(Holders(s, lt), i)), s');
    }
  }

  lemma NextKeepsExclusion(o: Options, s: State, step: Step)
    requires ValidOptions(o) && InvIds(s) && Exclusion(o, s) && Enabled(s, step)
    ensures Exclusion(o, Next(o, s, step))
  {
    match step
    case DoTouch(id, lt, now) => TouchKeepsExclusion(o, s, id, lt, now);
    case DoRelease(id, lt, now) => ReleaseKeepsExclusion(o, s, id, lt, now);
    case DoExpire(id, lt, now) => ExpireKeepsExclusion(o, s, id, lt, now);
    case DoTry(id, now) => TryKeepsExclusion(o, s, id, now);
    case _ => ExclusionOfTickets(o, s, Next(o, s, step));
  }

  lemma NextKeepsInv(o: Options, s: State, step: Step)
    requires ValidOptions(o) && Inv(o, s) && Enabled(s, step)
    ensures Inv(o, Next(o, s, step))
  {
    NextKeepsIds(o, s, step);
    NextKeepsExclusion(o, s, step);
    NextKeepsWakeup(o, s, step);
    NextKeepsCounts(o, s, step);
    NextKeepsWatchdog(o, s, step);
  }

  lemma {:induction false} RunKeepsInv(o: Options, s: State, steps: seq<Step>)
    requires ValidOptions(o) && Inv(o, s) && Legal(o, s, steps)
    ensures Inv(o, Run(o, s, steps))
    decreases |steps|
  {
    if steps != [] {
      NextKeepsInv(o, s, steps[0]);
      RunKeepsInv(o, Next(o, s, steps[0]), steps[1..]);
    }
  }

  /** Exclusion, no lost wakeup, conservation and the watchdog hold in every reachable state. */
  lemma Safety(o: Options, s: State)
    requires ValidOptions(o) && Reachable(o, s)
    ensures Inv(o, s)
  {
    var steps :| Legal(o, Init(), steps) && Run(o, Init(), steps) == s;
    InitHolds(o);
    RunKeepsInv(o, Init(), steps);
  }

  // ---------- overtaking over runs ----------

  ghost predicate Queued(s: State, id: nat) {
    QueueIndex(s.queue, id) < |s.queue|
  }

  /** The step grants the queued ticket it names. */
  ghost predicate Grants(o: Options, s: State, step: Step) {
    step.DoTry? && Queued(s, step.id) && CanAcquire(o, s, s.queue[QueueIndex(s.queue, step.id)], step.now)
  }

  /** Which grants are counted: of leases, of leases while no active barrier blocks a class, of barriers, or of
      transports in one ticket's lane that were not stamped before it. */
  datatype Watch = Leases | UnblockedLeases(apduClass: APDUClass) | Barriers | Lane(ticket: Ticket)

  ghost predicate Counts(s: State, w: Watch, t: Ticket) {
    match w
    case Leases => t.kind == LeaseWait
    case UnblockedLeases(c) => t.kind == LeaseWait && !IsBlocked(s, c)
    case Barriers => t.kind == BarrierWait
    case Lane(first) => SameLane(first, t) && first.enqueued <= t.enqueued
  }

  ghost predicate GrantsWatched(o: Options, s: State, step: Step, w: Watch) {
    Grants(o, s, step) && Counts(s, w, s.queue[QueueIndex(s.queue, step.id)])
  }

  /** The tickets granted along a run that are counted, in order. */
  ghost function GrantedIds(o: Options, s: State, steps: seq<Step>, w: Watch): seq<nat>
    decreases |steps|
  {
    if steps == [] then []
    else (if GrantsWatched(o, s, steps[0], w) then [steps[0].id] else [])
         + GrantedIds(o, Next(o, s, steps[0]), steps[1..], w)
  }

  ghost predicate WaitsThrough(o: Options, s: State, steps: seq<Step>, id: nat)
    decreases |steps|
  {
    Queued(s, id) && (steps == [] || WaitsThrough(o, Next(o, s, steps[0]), steps[1..], id))
  }

  /** What makes a queued ticket one that no counted grant passes. */
  ghost predicate Shields(s: State, w: Watch, id: nat) {
    Queued(s, id) &&
    var k := QueueIndex(s.queue, id);
    match w
    case Leases => ClosesQueue(s.queue[k])
    case UnblockedLeases(c) => AgedExclusive(s, k, s.clock) && c == s.queue[k].apduClass
    case Barriers => s.queue[k].kind == BarrierWait
    case Lane(first) => s.queue[k] == first && first.leaseType == Transport
  }

  ghost predicate StandsAhead(q: seq<Ticket>, other: nat, id: nat) {
    QueueIndex(q, other) < QueueIndex(q, id)
  }

  lemma IndexIs(q: seq<Ticket>, i: nat)
    requires DistinctTickets(q) && i < |q|
    ensures QueueIndex(q, q[i].id) == i
  {
  }

  lemma IndexAfterRemoval(q: seq<Ticket>, i: nat, id: nat)
    requires DistinctTickets(q) && i < |q| && q[i].id != id && QueueIndex(q, id) < |q|
    ensures QueueIndex(RemoveAt(q, i), id) == if i < QueueIndex(q, id) then QueueIndex(q, id) - 1 else QueueIndex(q, id)
  {
    var k := QueueIndex(q, id);
    var r := RemoveAt(q, i);
    assert r[if i < k then k - 1 else k] == q[k];
    assert forall j :: 0 <= j < |r| ==> r[j] == q[j] || r[j] == q[j + 1];
  }

  /** From queue `q` to queue `r` a ticket stays the same ticket, only moves forward, and gains nobody ahead. */
  ghost predicate MovesForward(q: seq<Ticket>, r: seq<Ticket>, id: nat) {
    var k, k' := QueueIndex(q, id), QueueIndex(r, id);
    k < |q| && k' < |r| && r[k'] == q[k] && k' <= k
    && forall other :: StandsAhead(r, other, id) ==> StandsAhead(q, other, id)
  }

  lemma RemovalMovesForward(q: seq<Ticket>, i: nat, id: nat)
    requires DistinctTickets(q) && i < |q| && QueueIndex(q, id) < |q|
    requires QueueIndex(RemoveAt(q, i), id) < |q| - 1
    ensures MovesForward(q, RemoveAt(q, i), id)
    ensures i <= QueueIndex(q, id) ==>
      StandsAhead(q, q[i].id, id) && QueueIndex(RemoveAt(q, i), id) == QueueIndex(q, id) - 1
  {
    hide QueueIndex, RemoveAt;
    var r := RemoveAt(q, i);
    assert forall j :: 0 <= j < |r| ==> r[j] == q[if j < i then j else j + 1];
    IndexIs(q, QueueIndex(q, id));
    assert q[i].id != id;
    IndexAfterRemoval(q, i, id);
    IndexIs(q, i);
    forall other | StandsAhead(r, other, id) ensures StandsAhead(q, other, id) {
      var j := QueueIndex(r, other);
      IndexIs(q, if j < i then j else j + 1);
    }
  }

  lemma AppendMovesForward(q: seq<Ticket>, t: Ticket, id: nat)
    requires QueueIndex(q, id) < |q|
    ensures MovesForward(q, q + [t], id)
  {
    var r := q + [t];
    assert r[QueueIndex(q, id)] == q[QueueIndex(q, id)];
    assert forall j :: 0 <= j < |q| ==> r[j] == q[j];
    forall other | StandsAhead(r, other, id) ensures StandsAhead(q, other, id) {
      assert r[QueueIndex(r, other)] == q[QueueIndex(r, other)];
    }
  }

  lemma TryMovesForward(o: Options, s: State, w: nat, now: int, id: nat)
    requires InvIds(s) && Queued(s, id) && Queued(Try(o, s, w, now), id)
    ensures MovesForward(s.queue, Try(o, s, w, now).queue, id)
  {
    var i := QueueIndex(s.queue, w);
    if i < |s.queue| && CanAcquire(o, s, s.queue[i], now) {
      assert Try(o, s, w, now).queue == RemoveAt(s.queue, i);
      RemovalMovesForward(s.queue, i, id);
    }
  }

  lemma CancelMovesForward(s: State, w: nat, now: int, id: nat)
    requires InvIds(s) && Queued(s, id) && Queued(Cancel(s, w, now), id)
    ensures MovesForward(s.queue, Cancel(s, w, now).queue, id)
  {
    if Queued(s, w) { RemovalMovesForward(s.queue, QueueIndex(s.queue, w), id); }
  }

  lemma QueueStays(o: Options, s: State, step: Step)
    requires !step.DoEnqueue? && !step.DoTry? && !step.DoCancel?
    ensures Next(o, s, step).queue == s.queue
  {
    hide QueueIndex, HoldIndex, RemoveAt, LeaseTicket, BarrierTicket, Try, Cancel;
  }

  lemma StaysInPlace(q: seq<Ticket>, id: nat)
    requires QueueIndex(q, id) < |q|
    ensures MovesForward(q, q, id)
  {
  }

  lemma StepMovesForward(o: Options, s: State, step: Step, id: nat)
    requires InvIds(s) && Enabled(s, step) && Queued(s, id) && Queued(Next(o, s, step), id)
    ensures MovesForward(s.queue, Next(o, s, step).queue, id)
  {
    hide InvIds, MovesForward, Try, Cancel, Touch, Release, Expire, Issue, QueueIndex;
    match step
    case DoEnqueue(t, _) => AppendMovesForward(s.queue, t, id);
    case DoTry(w, now) => TryMovesForward(o, s, w, now, id);
    case DoCancel(w, now) => CancelMovesForward(s, w, now, id);
    case _ =>
      QueueStays(o, s, step);
      StaysInPlace(s.queue, id);
  }

  /** A ticket granted from not behind a waiting one stood ahead of it and moves it forward by one. */
  lemma GrantMovesForward(o: Options, s: State, step: Step, id: nat)
    requires InvIds(s) && Enabled(s, step) && Queued(s, id) && Queued(Next(o, s, step), id)
    requires Grants(o, s, step) && QueueIndex(s.queue, step.id) <= QueueIndex(s.queue, id)
    ensures StandsAhead(s.queue, step.id, id)
    ensures QueueIndex(Next(o, s, step).queue, id) == QueueIndex(s.queue, id) - 1
  {
    RemovalMovesForward(s.queue, QueueIndex(s.queue, step.id), id);
  }

  /** No counted grant comes from behind a ticket that shields. */
  lemma ShieldHolds(o: Options, s: State, step: Step, w: Watch, id: nat)
    requires InvIds(s) && Enabled(s, step) && Shields(s, w, id) && GrantsWatched(o, s, step, w)
    ensures QueueIndex(s.queue, step.id) <= QueueIndex(s.queue, id)
  {
    var k, i := QueueIndex(s.queue, id), QueueIndex(s.queue, step.id);
    if i > k {
      match w
      case Leases => LeaseStaysBehind(o, s, k, i, step.now);
      case UnblockedLeases(_) => LeaseStaysBehindAged(o, s, k, i, step.now);
      case Barriers => BarrierStaysBehind(s, k, i);
      case Lane(_) => LaneFifo(o, s, k, i, step.now);
    }
  }

  /** A barrier behind another one cannot pass. */
  lemma BarrierStaysBehind(s: State, k: nat, i: nat)
    requires InvIds(s) && k < i < |s.queue| && s.queue[k].kind == BarrierWait
    ensures !CanAcquireBarrier(s, s.queue[i])
  {
  }

  /** A ticket that shields goes on doing so while it waits. */
  lemma ShieldStays(o: Options, s: State, step: Step, w: Watch, id: nat)
    requires InvIds(s) && Enabled(s, step) && Shields(s, w, id) && Queued(Next(o, s, step), id)
    ensures Shields(Next(o, s, step), w, id)
  {
    StepMovesForward(o, s, step, id);
    assert Next(o, s, step).clock == step.now;
  }

  /** While a ticket waits, the grants that it holds up all stood ahead of it, and each takes it one place forward:
      there are at most as many as its way through the queue is long. */
  lemma {:induction false} OvertakingBound(o: Options, s: State, steps: seq<Step>, w: Watch, id: nat)
    requires ValidOptions(o) && Inv(o, s) && Legal(o, s, steps)
    requires WaitsThrough(o, s, steps, id) && Shields(s, w, id)
    ensures |GrantedIds(o, s, steps, w)| + QueueIndex(Run(o, s, steps).queue, id) <= QueueIndex(s.queue, id)
    ensures forall g :: g in GrantedIds(o, s, steps, w) ==> StandsAhead(s.queue, g, id)
    decreases |steps|
  {
    hide Next, Enabled, Inv, Shields, GrantsWatched, Grants, MovesForward;
    if steps != [] {
      var s' := Next(o, s, steps[0]);
      BoundStep(o, s, steps[0], w, id);
      OvertakingBound(o, s', steps[1..], w, id);
    }
  }

  lemma BoundStep(o: Options, s: State, step: Step, w: Watch, id: nat)
    requires ValidOptions(o) && Inv(o, s) && Enabled(s, step) && Shields(s, w, id) && Queued(Next(o, s, step), id)
    ensures var s' := Next(o, s, step);
            && Inv(o, s') && Shields(s', w, id) && QueueIndex(s'.queue, id) <= QueueIndex(s.queue, id)
            && (forall other :: StandsAhead(s'.queue, other, id) ==> StandsAhead(s.queue, other, id))
            && (GrantsWatched(o, s, step, w) ==>
                  StandsAhead(s.queue, step.id, id) && QueueIndex(s'.queue, id) == QueueIndex(s.queue, id) - 1)
  {
    hide Next, Enabled, Exclusion, NoLostWakeup, Conserved, Watchdog, Grants, Counts, InvIds;
    NextKeepsInv(o, s, step);
    ShieldStays(o, s, step, w, id);
    StepMovesForward(o, s, step, id);
    if GrantsWatched(o, s, step, w) {
      ShieldHolds(o, s, step, w, id);
      GrantMovesForward(o, s, step, id);
    }
  }

  /** While a barrier waits, the leases granted all stood ahead of it, and there are at most that many. */
  lemma BarrierOvertaking(o: Options, s: State, steps: seq<Step>, b: nat)
    requires ValidOptions(o) && Reachable(o, s) && Legal(o, s, steps)
    requires WaitsThrough(o, s, steps, b) && s.queue[QueueIndex(s.queue, b)].kind == BarrierWait
    ensures |GrantedIds(o, s, steps, Leases)| + QueueIndex(Run(o, s, steps).queue, b) <= QueueIndex(s.queue, b)
    ensures forall g :: g in GrantedIds(o, s, steps, Leases) ==> StandsAhead(s.queue, g, b)
  {
    Safety(o, s);
    OvertakingBound(o, s, steps, Leases, b);
  }

  /** So it is while a session or a one-shot waits. */
  lemma SessionOvertaking(o: Options, s: State, steps: seq<Step>, x: nat)
    requires ValidOptions(o) && Reachable(o, s) && Legal(o, s, steps) && WaitsThrough(o, s, steps, x)
    requires s.queue[QueueIndex(s.queue, x)].leaseType in {Session, OneShot}
    ensures |GrantedIds(o, s, steps, Leases)| + QueueIndex(Run(o, s, steps).queue, x) <= QueueIndex(s.queue, x)
    ensures forall g :: g in GrantedIds(o, s, steps, Leases) ==> StandsAhead(s.queue, g, x)
  {
    Safety(o, s);
    OvertakingBound(o, s, steps, Leases, x);
  }

  /** Anti-starvation: once an exclusive non-AKA transport has aged, every lease granted while no active barrier blocks
      its class stood ahead of it, and there are at most as many as stood there; whatever else the run grants. */
  lemma AgedOvertaking(o: Options, s: State, steps: seq<Step>, x: nat)
    requires ValidOptions(o) && Reachable(o, s) && Legal(o, s, steps) && WaitsThrough(o, s, steps, x)
    requires AgedExclusive(s, QueueIndex(s.queue, x), s.clock)
    ensures var w := UnblockedLeases(s.queue[QueueIndex(s.queue, x)].apduClass);
            && |GrantedIds(o, s, steps, w)| + QueueIndex(Run(o, s, steps).queue, x) <= QueueIndex(s.queue, x)
            && forall g :: g in GrantedIds(o, s, steps, w) ==> StandsAhead(s.queue, g, x)
  {
    Safety(o, s);
    OvertakingBound(o, s, steps, UnblockedLeases(s.queue[QueueIndex(s.queue, x)].apduClass), x);
  }

  /** Barriers are granted in queue order in every run: while one waits, only barriers ahead of it are granted. */
  lemma BarriersInOrder(o: Options, s: State, steps: seq<Step>, b: nat)
    requires ValidOptions(o) && Reachable(o, s) && Legal(o, s, steps)
    requires WaitsThrough(o, s, steps, b) && s.queue[QueueIndex(s.queue, b)].kind == BarrierWait
    ensures forall g :: g in GrantedIds(o, s, steps, Barriers) ==> StandsAhead(s.queue, g, b)
  {
    Safety(o, s);
    OvertakingBound(o, s, steps, Barriers, b);
  }

  /** So are transports of one class, scope and channel: while one waits, none that was stamped later is granted from
      behind it, now in the queue or yet to come. */
  lemma LanesInOrder(o: Options, s: State, steps: seq<Step>, x: nat)
    requires ValidOptions(o) && Reachable(o, s) && Legal(o, s, steps) && WaitsThrough(o, s, steps, x)
    requires s.queue[QueueIndex(s.queue, x)].leaseType == Transport
    ensures forall g :: g in GrantedIds(o, s, steps, Lane(s.queue[QueueIndex(s.queue, x)])) ==>
              StandsAhead(s.queue, g, x)
  {
    Safety(o, s);
    OvertakingBound(o, s, steps, Lane(s.queue[QueueIndex(s.queue, x)]), x);
  }

  /** Without an active lease the first queued barrier passes, whatever barriers are active: when its owner next
      tries, it is granted. */
  lemma FirstBarrierEnters(o: Options, s: State, b: nat, now: int)
    requires ValidOptions(o) && Reachable(o, s) && b < |s.queue| && s.queue[b].kind == BarrierWait && NoLease(s)
    ensures var f := FirstBarrier(s.queue);
            && f <= b && CanAcquireBarrier(s, s.queue[f]) && NewHold(o, s.queue[f], now).expiresAt == Never
            && Next(o, s, DoTry(s.queue[f].id, now)) == Grant(o, s, f, now)
            && NewHold(o, s.queue[f], now) in Next(o, s, DoTry(s.queue[f].id, now)).barriers
  {
    hide Exclusion, NoLostWakeup, Conserved, Watchdog;
    Safety(o, s);
    var f := FirstBarrier(s.queue);
    IndexIs(s.queue, f);
    BarrierType(s, f);
    hide InvIds;
    assert SetHolders(s, BarrierLease, s.barriers + [NewHold(o, s.queue[f], now)]).barriers
        == s.barriers + [NewHold(o, s.queue[f], now)];
  }

  lemma BarrierType(s: State, f: nat)
    requires InvIds(s) && f < |s.queue| && s.queue[f].kind == BarrierWait
    ensures s.queue[f].leaseType == BarrierLease
  {
  }
}
