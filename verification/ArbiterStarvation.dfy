/** What the priority rule does not give: an AKA transport can wait for ever. */
module ArbiterStarvation {
  import opened ArbiterModel
  import opened ArbiterInvariants
  import opened ArbiterSelection
  import opened ArbiterRuns
  import opened ArbiterLiveness

  /** An exclusive transport holds the card, and an exclusive AKA transport is the only one to wait. */
  ghost predicate OneWaits(s: State, k: Ticket) {
    && s.queue == [k] && s.issued == {} && s.sessions == [] && s.oneshots == [] && s.barriers == []
    && |s.transports| == 1
    && k.kind == LeaseWait && k.leaseType == Transport && k.scope == Exclusive && k.apduClass == USIMAKA
    && 0 < k.id <= s.seqNo
  }

  /** The queued ticket would be granted if its owner tried at `now`. */
  ghost predicate Passes(o: Options, s: State, id: nat, now: int) {
    Queued(s, id) && CanAcquire(o, s, s.queue[QueueIndex(s.queue, id)], now)
  }

  /** At no step of the run would the owner be granted the card by trying. */
  ghost predicate NeverPasses(o: Options, s: State, steps: seq<Step>, id: nat)
    decreases |steps|
  {
    steps == [] || (!Passes(o, s, id, steps[0].now) && NeverPasses(o, Next(o, s, steps[0]), steps[1..], id))
  }

  /** How a run that starts with one step is put together. */
  lemma FirstStep(o: Options, s: State, step: Step, rest: seq<Step>, id: nat, w: Watch)
    requires Enabled(s, step) && Legal(o, Next(o, s, step), rest) && Queued(s, id)
    requires WaitsThrough(o, Next(o, s, step), rest, id)
    requires !Passes(o, s, id, step.now) && NeverPasses(o, Next(o, s, step), rest, id)
    ensures var all := [step] + rest;
            && Legal(o, s, all) && WaitsThrough(o, s, all, id) && NeverPasses(o, s, all, id)
            && GrantedIds(o, s, all, w) ==
                 (if GrantsWatched(o, s, step, w) then [step.id] else []) + GrantedIds(o, Next(o, s, step), rest, w)
  {
    hide Next, Enabled, GrantsWatched, Passes;
    assert ([step] + rest)[1..] == rest;
  }

  /** A free card, the AKA first in the queue and an aged plain transport behind it: the plain one is granted. */
  lemma AgedGoesFirst(o: Options, s: State, k: Ticket, p: Ticket, now: int)
    requires InvIds(s) && Nothing(s) && s.queue == [k, p] && Aged(p, now)
    requires k.kind == p.kind == LeaseWait && k.leaseType == p.leaseType == Transport && k.scope == p.scope == Exclusive
    requires k.apduClass == USIMAKA && p.apduClass != USIMAKA
    ensures CanAcquire(o, s, p, now) && !CanAcquire(o, s, k, now)
  {
    assert Eligible(o, s, s.queue[0]) && Eligible(o, s, s.queue[1]);
    assert Scanned(o, s, 1);
    FirstAgedPasses(o, s, 1, now);
    assert s.queue[0].id != s.queue[1].id;
  }

  /** Nobody gets in beside an exclusive transport. */
  lemma HeldBack(o: Options, s: State, k: Ticket, now: int)
    requires Inv(o, s) && s.queue != [] && s.queue[0] == k && s.transports != []
    requires k.leaseType == Transport && k.scope == Exclusive
    ensures !Passes(o, s, k.id, now)
  {
    hide CanAcquire;
    HeldOut(o, s, 0, now);
  }

  /** Another plain transport joins behind the AKA. */
  lemma PlainJoins(o: Options, s: State, k: Ticket) returns (p: Ticket, s': State)
    requires ValidOptions(o) && Inv(o, s) && OneWaits(s, k)
    ensures p == LeaseTicket(s.seqNo + 1, PLAIN, Transport, s.clock)
    ensures var issue, enqueue := DoIssueLease(PLAIN, Transport, s.clock), DoEnqueue(p, s.clock);
            var s1 := Next(o, s, issue);
            && Enabled(s, issue) && Enabled(s1, enqueue) && s' == Next(o, s1, enqueue) && Queued(s1, k.id)
            && !Passes(o, s, k.id, s.clock) && !Passes(o, s1, k.id, s.clock)
    ensures Inv(o, s') && Queued(s', k.id)
    ensures s'.queue == [k, p] && s'.issued == {} && s'.sessions == [] && s'.oneshots == [] && s'.barriers == []
    ensures s'.transports == s.transports && s'.clock == s.clock && s'.seqNo == s.seqNo + 1
  {
    hide Inv, Passes;
    HeldBack(o, s, k, s.clock);
    p := LeaseTicket(s.seqNo + 1, PLAIN, Transport, s.clock);
    NextKeepsInv(o, s, DoIssueLease(PLAIN, Transport, s.clock));
    var s1 := Next(o, s, DoIssueLease(PLAIN, Transport, s.clock));
    HeldBack(o, s1, k, s.clock);
    NextKeepsInv(o, s1, DoEnqueue(p, s.clock));
    s' := Next(o, s1, DoEnqueue(p, s.clock));
  }

  /** Half a second later the card is given back; the AKA tries and fails, and the plain transport gets it. */
  lemma PlainWins(o: Options, s: State, k: Ticket, p: Ticket) returns (s': State)
    requires ValidOptions(o) && Inv(o, s) && s.queue == [k, p] && s.issued == {} && s.barriers == []
    requires s.sessions == [] && s.oneshots == [] && |s.transports| == 1
    requires k.kind == p.kind == LeaseWait && k.leaseType == p.leaseType == Transport && k.scope == p.scope == Exclusive
    requires k.apduClass == USIMAKA && p.apduClass != USIMAKA && p.enqueued == s.clock && 0 < k.id < p.id == s.seqNo
    ensures var now := s.clock + TRANSPORT_PRIORITY_AGING;
            var release := DoRelease(s.transports[0].ticket.id, Transport, now);
            var s1 := Next(o, s, release);
            var s2 := Next(o, s1, DoTry(k.id, now));
            && Enabled(s, release) && Enabled(s1, DoTry(k.id, now)) && Enabled(s2, DoTry(p.id, now))
            && s' == Next(o, s2, DoTry(p.id, now)) && Queued(s1, k.id) && Queued(s2, k.id)
            && !Passes(o, s, k.id, now) && !Passes(o, s1, k.id, now) && !Passes(o, s2, k.id, now)
            && GrantsWatched(o, s2, DoTry(p.id, now), Leases)
    ensures Inv(o, s') && OneWaits(s', k) && s'.seqNo == s.seqNo
  {
    hide Inv, CanAcquire;
    var now := s.clock + TRANSPORT_PRIORITY_AGING;
    var release := DoRelease(s.transports[0].ticket.id, Transport, now);
    HeldBack(o, s, k, now);
    NextKeepsInv(o, s, release);
    var s1 := Next(o, s, release);
    assert s1.transports == [];
    InvHasIds(o, s1);
    AgedGoesFirst(o, s1, k, p, now);
    assert QueueIndex(s1.queue, k.id) == 0;
    NextKeepsInv(o, s1, DoTry(k.id, now));
    var s2 := Next(o, s1, DoTry(k.id, now));
    assert s2 == Park(s1, k.id, now);
    InvHasIds(o, s2);
    AgedGoesFirst(o, s2, k, p, now);
    SecondInQueue(k, p);
    NextKeepsInv(o, s2, DoTry(p.id, now));
    s' := Next(o, s2, DoTry(p.id, now));
    assert s' == Grant(o, s2, 1, now);
  }

  lemma InvHasIds(o: Options, s: State)
    requires Inv(o, s)
    ensures InvIds(s)
  {
  }

  lemma SecondInQueue(k: Ticket, p: Ticket)
    requires k.id != p.id
    ensures QueueIndex([k, p], p.id) == 1 && RemoveAt([k, p], 1) == [k]
  {
  }

  /** While the AKA waits, `n` plain transports that come after it are granted one after the other. */
  lemma {:induction false} Starves(o: Options, s: State, k: Ticket, n: nat) returns (steps: seq<Step>)
    requires ValidOptions(o) && Inv(o, s) && OneWaits(s, k)
    ensures Legal(o, s, steps) && WaitsThrough(o, s, steps, k.id) && NeverPasses(o, s, steps, k.id)
    ensures |GrantedIds(o, s, steps, Leases)| == n
    ensures forall g :: g in GrantedIds(o, s, steps, Leases) ==> g > s.seqNo
    decreases n
  {
    hide Next, Enabled, Inv, GrantsWatched, Grants, Passes;
    assert Queued(s, k.id);
    if n == 0 {
      steps := [];
    } else {
      var p, s2 := PlainJoins(o, s, k);
      var s5 := PlainWins(o, s2, k, p);
      var rest := Starves(o, s5, k, n - 1);
      steps := OneRound(o, s, k, p, s2, s5, rest);
    }
  }

  /** The five steps of a round in front of the rounds that follow. */
  lemma OneRound(o: Options, s: State, k: Ticket, p: Ticket, s2: State, s5: State, rest: seq<Step>)
    returns (steps: seq<Step>)
    requires Queued(s, k.id) && Queued(s2, k.id) && |s2.transports| > 0
    requires var issue, enqueue := DoIssueLease(PLAIN, Transport, s.clock), DoEnqueue(p, s.clock);
             var s1 := Next(o, s, issue);
             Enabled(s, issue) && Enabled(s1, enqueue) && s2 == Next(o, s1, enqueue) && Queued(s1, k.id)
    requires var now := s2.clock + TRANSPORT_PRIORITY_AGING;
             var release := DoRelease(s2.transports[0].ticket.id, Transport, now);
             var s3 := Next(o, s2, release);
             var s4 := Next(o, s3, DoTry(k.id, now));
             && Enabled(s2, release) && Enabled(s3, DoTry(k.id, now)) && Enabled(s4, DoTry(p.id, now))
             && s5 == Next(o, s4, DoTry(p.id, now)) && Queued(s3, k.id) && Queued(s4, k.id)
             && !Passes(o, s2, k.id, now) && !Passes(o, s3, k.id, now) && !Passes(o, s4, k.id, now)
             && GrantsWatched(o, s4, DoTry(p.id, now), Leases)
    requires !Passes(o, s, k.id, s.clock)
    requires !Passes(o, Next(o, s, DoIssueLease(PLAIN, Transport, s.clock)), k.id, s.clock)
    requires Legal(o, s5, rest) && WaitsThrough(o, s5, rest, k.id) && NeverPasses(o, s5, rest, k.id)
    ensures Legal(o, s, steps) && WaitsThrough(o, s, steps, k.id) && NeverPasses(o, s, steps, k.id)
    ensures GrantedIds(o, s, steps, Leases) == [p.id] + GrantedIds(o, s5, rest, Leases)
  {
    hide Next, Enabled, Legal, WaitsThrough, GrantedIds, Counts, NeverPasses, CanAcquire;
    var issue, enqueue := DoIssueLease(PLAIN, Transport, s.clock), DoEnqueue(p, s.clock);
    var s1 := Next(o, s, issue);
    var now := s2.clock + TRANSPORT_PRIORITY_AGING;
    var release := DoRelease(s2.transports[0].ticket.id, Transport, now);
    var s3 := Next(o, s2, release);
    var s4 := Next(o, s3, DoTry(k.id, now));
    FirstStep(o, s4, DoTry(p.id, now), rest, k.id, Leases);
    steps := [DoTry(p.id, now)] + rest;
    FirstStep(o, s3, DoTry(k.id, now), steps, k.id, Leases);
    steps := [DoTry(k.id, now)] + steps;
    FirstStep(o, s2, release, steps, k.id, Leases);
    steps := [release] + steps;
    FirstStep(o, s1, enqueue, steps, k.id, Leases);
    steps := [enqueue] + steps;
    FirstStep(o, s, issue, steps, k.id, Leases);
    steps := [issue] + steps;
  }

  /** For every number there is a run in which an AKA transport waits, and would fail whenever it tried, while that many
      leases that joined the queue after it are granted. */
  lemma AKAWaitsForEver(o: Options, n: nat) returns (s: State, k: Ticket, steps: seq<Step>)
    requires ValidOptions(o)
    ensures Reachable(o, s) && s.queue == [k] && k.leaseType == Transport && k.apduClass == USIMAKA
    ensures Legal(o, s, steps) && WaitsThrough(o, s, steps, k.id) && NeverPasses(o, s, steps, k.id)
    ensures |GrantedIds(o, s, steps, Leases)| == n
    ensures forall g :: g in GrantedIds(o, s, steps, Leases) ==> !StandsAhead(s.queue, g, k.id)
  {
    hide Legal, WaitsThrough, NeverPasses, GrantedIds, Reachable, Inv;
    var h := OneHolds(o);
    k, s := JoinAndSleep(o, h, PLAIN.(apduClass := USIMAKA));
    Safety(o, s);
    steps := Starves(o, s, k, n);
  }
}
