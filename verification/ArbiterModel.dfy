/** The APDU arbiter as a state machine: its data, its tests, and one function per critical section.
    Times are nanoseconds; the clock is an argument of every step. */
module ArbiterModel {

  datatype LeaseType = Session | OneShot | Transport | BarrierLease

  datatype Scope = Exclusive | QMIChannel

  datatype Kind = LeaseWait | BarrierWait

  /** The command classes; `Unset` is the empty string a caller may pass. */
  datatype APDUClass =
    | Unset
    | EUICCWrite
    | EUICCRead
    | USIMAKA
    | SMSC
    | SwitchBarrier
    | Recovery
    | OtherClass(name: string)

  datatype Options = Options(maxLeaseHold: int, maxSessions: int, maxQMITransports: int)

  /** `qmiMode` says whether the normalised mode is "QMI", the only use the arbiter makes of it. */
  datatype Request = Request(owner: string, qmiMode: bool, apduClass: APDUClass, channel: int, scope: Scope)

  datatype Ticket = Ticket(
    id: nat,
    owner: string,
    apduClass: APDUClass,
    channel: int,
    scope: Scope,
    leaseType: LeaseType,
    kind: Kind,
    blocked: set<APDUClass>,
    enqueued: int)

  datatype Deadline = Never | At(time: int)

  /** An active lease or barrier. A barrier has no watchdog deadline. */
  datatype Hold = Hold(ticket: Ticket, acquiredAt: int, expiresAt: Deadline)

  /** What a blocked caller remembers: the notification it waits for and when it last tried. */
  datatype Parking = Parking(version: nat, at: int)

  /** The history of the arbiter, one entry per effect. */
  datatype Event =
    | Issued(id: nat)
    | Enqueued(id: nat)
    | Granted(id: nat, leaseType: LeaseType, at: int)
    | Touched(id: nat, leaseType: LeaseType, at: int)
    | Cancelled(id: nat)
    | Released(id: nat)
    | Forced(id: nat, at: int)

  datatype State = State(
    seqNo: nat,
    issued: set<Ticket>,
    queue: seq<Ticket>,
    sessions: seq<Hold>,
    oneshots: seq<Hold>,
    transports: seq<Hold>,
    barriers: seq<Hold>,
    notify: nat,
    parked: map<nat, Parking>,
    waitRequests: nat,
    acquires: nat,
    waitTimeouts: nat,
    forcedReleases: nat,
    clock: int,
    log: seq<Event>)

  const TRANSPORT_PRIORITY_AGING := 500_000_000
  const DEFAULT_MAX_LEASE_HOLD := 120_000_000_000

  // ---------- construction and normalisation ----------

  ghost predicate ValidOptions(o: Options) {
    o.maxLeaseHold > 0 && o.maxSessions > 0 && o.maxQMITransports > 0
  }

  function NormalizeOptions(o: Options): (r: Options)
    ensures ValidOptions(r)
    ensures ValidOptions(o) ==> r == o
  {
    Options(
      if o.maxLeaseHold <= 0 then DEFAULT_MAX_LEASE_HOLD else o.maxLeaseHold,
      if o.maxSessions <= 0 then 1 else o.maxSessions,
      if o.maxQMITransports <= 0 then 1 else o.maxQMITransports)
  }

  function NormalizeClass(c: APDUClass, lt: LeaseType): APDUClass {
    if c != Unset then c else if lt == OneShot then USIMAKA else EUICCWrite
  }

  function NormalizeScope(r: Request, lt: LeaseType): Scope {
    if lt == Transport && r.scope == QMIChannel && r.qmiMode && r.channel > 0 then QMIChannel else Exclusive
  }

  function LeaseTicket(id: nat, r: Request, lt: LeaseType, now: int): Ticket {
    Ticket(id, r.owner, NormalizeClass(r.apduClass, lt), r.channel, NormalizeScope(r, lt), lt, LeaseWait, {}, now)
  }

  /** A barrier always blocks something: its policy, or USIMAKA and SMSC when the policy is empty. */
  function BarrierTicket(id: nat, r: Request, policy: seq<APDUClass>, now: int): Ticket {
    var blocked := set c | c in policy :: NormalizeClass(c, OneShot);
    Ticket(id, r.owner, if r.apduClass == Unset then SwitchBarrier else r.apduClass, r.channel, Exclusive,
           BarrierLease, BarrierWait, if blocked == {} then {USIMAKA, SMSC} else blocked, now)
  }

  function Init(): State {
    State(0, {}, [], [], [], [], [], 0, map[], 0, 0, 0, 0, 0, [])
  }

  // ---------- positions ----------

  /** The first position of ticket `id` in the queue, or its length. */
  function QueueIndex(q: seq<Ticket>, id: nat): (i: nat)
    ensures i <= |q|
    ensures i < |q| ==> q[i].id == id
    ensures forall j :: 0 <= j < i ==> q[j].id != id
  {
    if q == [] || q[0].id == id then 0 else QueueIndex(q[1..], id) + 1
  }

  function HoldIndex(hs: seq<Hold>, id: nat): (i: nat)
    ensures i <= |hs|
    ensures i < |hs| ==> hs[i].ticket.id == id
    ensures forall j :: 0 <= j < i ==> hs[j].ticket.id != id
  {
    if hs == [] || hs[0].ticket.id == id then 0 else HoldIndex(hs[1..], id) + 1
  }

  function RemoveAt<T>(xs: seq<T>, i: nat): (r: seq<T>)
    requires i < |xs|
    ensures |r| == |xs| - 1
    ensures forall j :: 0 <= j < i ==> r[j] == xs[j]
    ensures forall j :: i <= j < |r| ==> r[j] == xs[j + 1]
  {
    xs[..i] + xs[i + 1..]
  }

  function Holders(s: State, lt: LeaseType): seq<Hold> {
    match lt
    case Session => s.sessions
    case OneShot => s.oneshots
    case Transport => s.transports
    case BarrierLease => s.barriers
  }

  function SetHolders(s: State, lt: LeaseType, hs: seq<Hold>): State {
    match lt
    case Session => s.(sessions := hs)
    case OneShot => s.(oneshots := hs)
    case Transport => s.(transports := hs)
    case BarrierLease => s.(barriers := hs)
  }

  // ---------- the acquire tests ----------

  ghost predicate IsBlocked(s: State, c: APDUClass) {
    exists k :: 0 <= k < |s.barriers| && c in s.barriers[k].ticket.blocked
  }

  ghost predicate HasExclusive(s: State) {
    exists k :: 0 <= k < |s.transports| && s.transports[k].ticket.scope != QMIChannel
  }

  function QMICount(hs: seq<Hold>): (n: nat)
    ensures n <= |hs|
    ensures (forall k :: 0 <= k < |hs| ==> hs[k].ticket.scope == QMIChannel) ==> n == |hs|
  {
    if hs == [] then 0
    else QMICount(hs[..|hs| - 1]) + if hs[|hs| - 1].ticket.scope == QMIChannel then 1 else 0
  }

  ghost predicate ChannelBusy(s: State, channel: int) {
    exists k :: 0 <= k < |s.transports| && s.transports[k].ticket.scope == QMIChannel
                && s.transports[k].ticket.channel == channel
  }

  ghost predicate TransportFits(o: Options, s: State, t: Ticket) {
    t.leaseType == Transport &&
    if t.scope != QMIChannel then s.transports == []
    else !HasExclusive(s) && QMICount(s.transports) < o.maxQMITransports && !ChannelBusy(s, t.channel)
  }

  /** A transport that must wait closes the queue behind it, unless only its own channel is busy. */
  ghost predicate GatesQueue(o: Options, s: State, t: Ticket) {
    t.leaseType != Transport || t.scope != QMIChannel
    || HasExclusive(s) || QMICount(s.transports) >= o.maxQMITransports
  }

  /** The scan for a transport stops at this ticket. */
  ghost predicate StopsScan(o: Options, s: State, t: Ticket) {
    t.kind == BarrierWait || t.leaseType != Transport
    || (!IsBlocked(s, t.apduClass) && !TransportFits(o, s, t) && GatesQueue(o, s, t))
  }

  ghost predicate Eligible(o: Options, s: State, t: Ticket) {
    !StopsScan(o, s, t) && !IsBlocked(s, t.apduClass) && TransportFits(o, s, t)
  }

  predicate Aged(t: Ticket, now: int) {
    now - t.enqueued >= TRANSPORT_PRIORITY_AGING
  }

  /** The three grades of the priority rule, best first. */
  datatype Grade = AgedNonAKA | AKA | Any

  ghost predicate InGrade(o: Options, s: State, now: int, g: Grade, t: Ticket) {
    Eligible(o, s, t) &&
    match g
    case AgedNonAKA => t.apduClass != USIMAKA && Aged(t, now)
    case AKA => t.apduClass == USIMAKA
    case Any => true
  }

  /** How many of the first `n` tickets the scan passes before it stops. */
  ghost function ScanEnd(o: Options, s: State, n: nat): (e: nat)
    requires n <= |s.queue|
    ensures e <= n
    ensures forall j :: 0 <= j < e ==> !StopsScan(o, s, s.queue[j])
    ensures e < n ==> StopsScan(o, s, s.queue[e])
  {
    if n == 0 then 0
    else
      var e := ScanEnd(o, s, n - 1);
      if e < n - 1 then e else if StopsScan(o, s, s.queue[n - 1]) then n - 1 else n
  }

  /** The first of the first `n` tickets in grade `g`, or `n`. */
  ghost function FirstInGrade(o: Options, s: State, now: int, g: Grade, n: nat): (f: nat)
    requires n <= |s.queue|
    ensures f <= n
    ensures forall j :: 0 <= j < f ==> !InGrade(o, s, now, g, s.queue[j])
    ensures f < n ==> InGrade(o, s, now, g, s.queue[f])
  {
    if n == 0 then 0
    else
      var f := FirstInGrade(o, s, now, g, n - 1);
      if f < n - 1 then f else if InGrade(o, s, now, g, s.queue[n - 1]) then n - 1 else n
  }

  /** The transport the priority rule picks: the first of the best non-empty grade; 0 when there is none. */
  ghost function SelectedTransport(o: Options, s: State, now: int): nat {
    var n := ScanEnd(o, s, |s.queue|);
    var aged := FirstInGrade(o, s, now, AgedNonAKA, n);
    var aka := FirstInGrade(o, s, now, AKA, n);
    var any := FirstInGrade(o, s, now, Any, n);
    if aged < n then s.queue[aged].id
    else if aka < n then s.queue[aka].id
    else if any < n then s.queue[any].id
    else 0
  }

  /** The first position of a queued barrier, or the length of the queue. */
  function FirstBarrier(q: seq<Ticket>): (b: nat)
    ensures b <= |q|
    ensures b < |q| ==> q[b].kind == BarrierWait
    ensures forall j :: 0 <= j < b ==> q[j].kind != BarrierWait
  {
    if q == [] || q[0].kind == BarrierWait then 0 else FirstBarrier(q[1..]) + 1
  }

  /** The first queued barrier; 0 when there is none. */
  function SelectedBarrier(q: seq<Ticket>): nat {
    var b := FirstBarrier(q);
    if b < |q| then q[b].id else 0
  }

  ghost predicate PendingBarrierAhead(q: seq<Ticket>, t: Ticket) {
    exists k :: 0 <= k < QueueIndex(q, t.id) && q[k].kind == BarrierWait && t.apduClass in q[k].blocked
  }

  predicate QueueHeadIs(q: seq<Ticket>, id: nat) {
    |q| > 0 && q[0].id == id
  }

  ghost predicate CanAcquireLease(o: Options, s: State, t: Ticket, now: int) {
    t.kind == LeaseWait && !IsBlocked(s, t.apduClass) && !PendingBarrierAhead(s.queue, t) &&
    match t.leaseType
    case Session =>
      QueueHeadIs(s.queue, t.id) && s.oneshots == [] && s.transports == [] && |s.sessions| < o.maxSessions
    case OneShot =>
      QueueHeadIs(s.queue, t.id) && s.sessions == [] && s.oneshots == [] && s.transports == []
    case Transport =>
      s.sessions == [] && s.oneshots == [] && SelectedTransport(o, s, now) == t.id
    case BarrierLease => false
  }

  ghost predicate NoLease(s: State) {
    s.sessions == [] && s.oneshots == [] && s.transports == []
  }

  ghost predicate CanAcquireBarrier(s: State, t: Ticket) {
    t.kind == BarrierWait && NoLease(s) && SelectedBarrier(s.queue) == t.id
  }

  ghost predicate CanAcquire(o: Options, s: State, t: Ticket, now: int) {
    if t.kind == BarrierWait then CanAcquireBarrier(s, t) else CanAcquireLease(o, s, t, now)
  }

  // ---------- the critical sections ----------

  /** Taking a number and a time stamp: this happens before the lock is taken. */
  function Issue(s: State, t: Ticket, now: int): State {
    s.(seqNo := s.seqNo + 1, issued := s.issued + {t}, clock := now, log := s.log + [Issued(t.id)])
  }

  function Enqueue(s: State, t: Ticket, now: int): State {
    s.(issued := s.issued - {t}, queue := s.queue + [t], waitRequests := s.waitRequests + 1,
       notify := s.notify + 1, clock := now, log := s.log + [Enqueued(t.id)])
  }

  function NewHold(o: Options, t: Ticket, now: int): Hold {
    Hold(t, now, if t.kind == BarrierWait then Never else At(now + o.maxLeaseHold))
  }

  function Grant(o: Options, s: State, i: nat, now: int): State
    requires i < |s.queue|
  {
    var t := s.queue[i];
    SetHolders(s, t.leaseType, Holders(s, t.leaseType) + [NewHold(o, t, now)])
    .(queue := RemoveAt(s.queue, i), acquires := s.acquires + 1, notify := s.notify + 1,
      parked := s.parked - {t.id}, clock := now, log := s.log + [Granted(t.id, t.leaseType, now)])
  }

  function Park(s: State, id: nat, now: int): State {
    s.(parked := s.parked[id := Parking(s.notify, now)], clock := now)
  }

  /** One turn of a waiter's loop: take what is free, or park on the current notification. */
  ghost function Try(o: Options, s: State, id: nat, now: int): State {
    var i := QueueIndex(s.queue, id);
    if i == |s.queue| then s.(clock := now)
    else if CanAcquire(o, s, s.queue[i], now) then Grant(o, s, i, now)
    else Park(s, id, now)
  }

  function Cancel(s: State, id: nat, now: int): State {
    var i := QueueIndex(s.queue, id);
    if i == |s.queue| then s.(clock := now)
    else
      s.(queue := RemoveAt(s.queue, i), waitTimeouts := s.waitTimeouts + 1, notify := s.notify + 1,
         parked := s.parked - {id}, clock := now, log := s.log + [Cancelled(id)])
  }

  function Touch(o: Options, s: State, id: nat, lt: LeaseType, now: int): State {
    var hs := Holders(s, lt);
    var i := HoldIndex(hs, id);
    if lt == BarrierLease || i == |hs| then s.(clock := now)
    else
      SetHolders(s, lt, hs[i := hs[i].(expiresAt := At(now + o.maxLeaseHold))])
      .(clock := now, log := s.log + [Touched(id, lt, now)])
  }

  function Release(s: State, id: nat, lt: LeaseType, now: int): State {
    var hs := Holders(s, lt);
    var i := HoldIndex(hs, id);
    if i == |hs| then s.(clock := now)
    else
      SetHolders(s, lt, RemoveAt(hs, i))
      .(notify := s.notify + 1, clock := now, log := s.log + [Released(id)])
  }

  predicate Overdue(h: Hold, now: int) {
    h.expiresAt.At? ==> h.expiresAt.time <= now
  }

  /** A watchdog timer fires; it may be stale. */
  function Expire(s: State, id: nat, lt: LeaseType, now: int): State {
    var hs := Holders(s, lt);
    var i := HoldIndex(hs, id);
    if lt == BarrierLease || i == |hs| || !Overdue(hs[i], now) then s.(clock := now)
    else
      SetHolders(s, lt, RemoveAt(hs, i))
      .(notify := s.notify + 1, forcedReleases := s.forcedReleases + 1, clock := now,
        log := s.log + [Forced(id, now)])
  }

  // ---------- runs ----------

  datatype Step =
    | DoIssueLease(req: Request, leaseType: LeaseType, now: int)
    | DoIssueBarrier(req: Request, policy: seq<APDUClass>, now: int)
    | DoEnqueue(ticket: Ticket, now: int)
    | DoTry(id: nat, now: int)
    | DoCancel(id: nat, now: int)
    | DoTouch(id: nat, leaseType: LeaseType, now: int)
    | DoRelease(id: nat, leaseType: LeaseType, now: int)
    | DoExpire(id: nat, leaseType: LeaseType, now: int)

  /** The clock never runs back; sessions, one-shots and transports are the only leases that can be asked
      for; and a caller enqueues a ticket it took. Every other step may happen at any time: a caller may
      retry, cancel, touch or release late, and a timer may be stale. */
  ghost predicate Enabled(s: State, step: Step) {
    step.now >= s.clock &&
    match step
    case DoIssueLease(_, lt, _) => lt != BarrierLease
    case DoEnqueue(t, _) => t in s.issued
    case _ => true
  }

  ghost function Next(o: Options, s: State, step: Step): State {
    match step
    case DoIssueLease(r, lt, now) => Issue(s, LeaseTicket(s.seqNo + 1, r, lt, now), now)
    case DoIssueBarrier(r, policy, now) => Issue(s, BarrierTicket(s.seqNo + 1, r, policy, now), now)
    case DoEnqueue(t, now) => Enqueue(s, t, now)
    case DoTry(id, now) => Try(o, s, id, now)
    case DoCancel(id, now) => Cancel(s, id, now)
    case DoTouch(id, lt, now) => Touch(o, s, id, lt, now)
    case DoRelease(id, lt, now) => Release(s, id, lt, now)
    case DoExpire(id, lt, now) => Expire(s, id, lt, now)
  }

  ghost predicate Legal(o: Options, s: State, steps: seq<Step>)
    decreases |steps|
  {
    steps == [] || (Enabled(s, steps[0]) && Legal(o, Next(o, s, steps[0]), steps[1..]))
  }

  ghost function Run(o: Options, s: State, steps: seq<Step>): State
    decreases |steps|
  {
    if steps == [] then s else Run(o, Next(o, s, steps[0]), steps[1..])
  }

  ghost predicate Reachable(o: Options, s: State) {
    exists steps :: Legal(o, Init(), steps) && Run(o, Init(), steps) == s
  }
}
