/** The circuit-switched call manager: what each outbound INVITE transaction sees, and what Stop leaves behind.
    Two locks matter: the manager's, and each call's response lock, which a responder takes before it lets go
    of the manager's. */
module CallManager {
  import opened Common

  datatype CallState = Idle | Ringing | Dialing | Connected

  /** What an INVITE server transaction, or the dialog it made, sees. */
  datatype Signal = Provisional(code: int) | Final(code: int) | Bye | Terminate

  /** How far the one goroutine that took a call away has come. */
  datatype Ending = NotEnding | Taken(signal: bool, stopped: bool) | Answered(signal: bool) | Farewelled | Ended

  /** A call object. `pending` is the response whose sender holds the response lock. */
  datatype Call = Call(
    outbound: bool,
    finalStatus: int,
    pending: Option<int>,
    ending: Ending,
    wire: seq<Signal>)

  datatype StopPhase = Running | Stopping | FirstEnded | Drained | SecondEnded | Stopped

  datatype State = State(
    state: CallState,
    stopped: bool,
    current: Option<nat>,
    calls: map<nat, Call>,
    workflows: set<nat>,
    stopPhase: StopPhase,
    // the calls that Stop itself took away
    stopTook: set<nat>)

  function Init(): State {
    State(Idle, false, None, map[], {}, Running, {})
  }

  predicate IsFinal(code: int) {
    code >= 200
  }

  predicate Success(code: int) {
    200 <= code < 300
  }

  // ---------- the critical sections ----------

  /** respondServerLocked: nothing is sent once a final status is recorded. */
  function RespondLocked(call: Call, code: int): Call {
    if call.finalStatus != 0 then call
    else if IsFinal(code) then call.(finalStatus := code, wire := call.wire + [Final(code)])
    else call.(wire := call.wire + [Provisional(code)])
  }

  predicate Active(s: State, c: nat) {
    !s.stopped && s.current == Some(c) && s.state != Idle
  }

  /** endCallAndHangupIfCurrent up to the release of the manager's lock: the call is taken away. */
  function TakeCall(s: State, expected: Option<nat>, signal: bool): State {
    if expected.Some? && s.current != expected then s
    else if s.current.None? then s.(state := Idle)
    else
      var c := s.current.value;
      s.(state := Idle, current := None,
         calls := if c in s.calls then s.calls[c := s.calls[c].(ending := Taken(signal, s.stopped))] else s.calls)
  }

  datatype Step =
    | DoBegin(w: nat)
    | DoReturn(w: nat)
    | DoReject(c: nat, code: int)
    | DoRegisterOutbound(c: nat)
    | DoRingIncoming
    | DoRegisterInbound(c: nat)
    | DoConnect
    | DoLockResponse(c: nat, code: int)
    | DoSendPending(c: nat)
    | DoTake(expected: Option<nat>, signal: bool)
    | DoEndAnswer(c: nat)
    | DoEndBye(c: nat)
    | DoEndTerminate(c: nat)
    | DoStop
    | DoStopEndFirst
    | DoStopDrained
    | DoStopEndSecond
    | DoStopReturn

  /** The codes an outbound workflow answers with. */
  predicate AnswerCode(code: int) {
    code in {180, 200, 408, 500, 503}
  }

  /** The codes of an INVITE refused before it becomes a call. */
  predicate RefusalCode(code: int) {
    code in {400, 486, 503}
  }

  ghost predicate Unlocked(s: State, c: nat) {
    c in s.calls && s.calls[c].pending.None?
  }

  /** Stop runs its own endings to their end before it goes on. */
  ghost predicate StopEndingsDone(s: State) {
    forall c :: c in s.stopTook && c in s.calls ==> s.calls[c].ending.Ended?
  }

  ghost predicate Enabled(s: State, step: Step) {
    match step
    case DoBegin(w) => !s.stopped && w !in s.workflows && w !in s.calls
    case DoReturn(w) => w in s.workflows && (w in s.calls ==> Unlocked(s, w))
    case DoReject(c, code) => c !in s.calls && RefusalCode(code) && (c in s.workflows || s.stopped)
    case DoRegisterOutbound(c) => c in s.workflows && c !in s.calls && !s.stopped && s.state == Idle
    case DoRingIncoming => !s.stopped && s.state == Idle
    case DoRegisterInbound(c) => c in s.workflows && c !in s.calls && !s.stopped && s.state == Ringing
    case DoConnect => !s.stopped && s.state != Idle
    case DoLockResponse(c, code) =>
      c in s.workflows && Active(s, c) && Unlocked(s, c) && s.calls[c].outbound && AnswerCode(code)
    case DoSendPending(c) => c in s.workflows && c in s.calls && s.calls[c].pending.Some?
    case DoTake(_, _) => true
    case DoEndAnswer(c) => Unlocked(s, c) && s.calls[c].ending.Taken?
    case DoEndBye(c) => Unlocked(s, c) && s.calls[c].ending.Answered?
    case DoEndTerminate(c) => Unlocked(s, c) && s.calls[c].ending.Farewelled?
    case DoStop => s.stopPhase == Running
    case DoStopEndFirst => s.stopPhase == Stopping
    case DoStopDrained => s.stopPhase == FirstEnded && StopEndingsDone(s) && s.workflows == {}
    case DoStopEndSecond => s.stopPhase == Drained
    case DoStopReturn => s.stopPhase == SecondEnded && StopEndingsDone(s)
  }

  function UpdateCall(s: State, c: nat, call: Call): State {
    s.(calls := s.calls[c := call])
  }

  /** The 503 of an ending under Stop, then the BYE, then the end of the server transaction. */
  function EndAnswer(call: Call): Call
    requires call.ending.Taken?
  {
    var answered := if call.outbound && call.ending.signal && call.ending.stopped
        then RespondLocked(call, 503) else call;
    answered.(ending := Answered(call.ending.signal))
  }

  function EndBye(call: Call): Call
    requires call.ending.Answered?
  {
    var bye := call.outbound && call.ending.signal && Success(call.finalStatus);
    call.(ending := Farewelled, wire := if bye then call.wire + [Bye] else call.wire)
  }

  function EndTerminate(call: Call): Call {
    call.(ending := Ended, wire := if call.outbound then call.wire + [Terminate] else call.wire)
  }

  function StopTake(s: State, phase: StopPhase): State {
    TakeCall(s, None, true)
    .(stopPhase := phase, stopTook := if s.current.Some? then s.stopTook + {s.current.value} else s.stopTook)
  }

  ghost function Next(s: State, step: Step): State
    requires Enabled(s, step)
  {
    match step
    case DoBegin(w) => s.(workflows := s.workflows + {w})
    case DoReturn(w) => s.(workflows := s.workflows - {w})
    case DoReject(c, code) => UpdateCall(s, c, Call(true, code, None, Ended, [Final(code)]))
    case DoRegisterOutbound(c) =>
      UpdateCall(s, c, Call(true, 0, None, NotEnding, [])).(state := Dialing, current := Some(c))
    case DoRingIncoming => s.(state := Ringing)
    case DoRegisterInbound(c) => UpdateCall(s, c, Call(false, 0, None, NotEnding, [])).(current := Some(c))
    case DoConnect => s.(state := Connected)
    case DoLockResponse(c, code) => UpdateCall(s, c, s.calls[c].(pending := Some(code)))
    case DoSendPending(c) =>
      UpdateCall(s, c, RespondLocked(s.calls[c], s.calls[c].pending.value).(pending := None))
    case DoTake(expected, signal) => TakeCall(s, expected, signal)
    case DoEndAnswer(c) => UpdateCall(s, c, EndAnswer(s.calls[c]))
    case DoEndBye(c) => UpdateCall(s, c, EndBye(s.calls[c]))
    case DoEndTerminate(c) => UpdateCall(s, c, EndTerminate(s.calls[c]))
    case DoStop => s.(stopped := true, stopPhase := Stopping)
    case DoStopEndFirst => StopTake(s, FirstEnded)
    case DoStopDrained => s.(stopPhase := Drained)
    case DoStopEndSecond => StopTake(s, SecondEnded)
    case DoStopReturn => s.(stopPhase := Stopped)
  }

  ghost predicate Legal(s: State, steps: seq<Step>)
    decreases |steps|
  {
    steps == [] || (Enabled(s, steps[0]) && Legal(Next(s, steps[0]), steps[1..]))
  }

  ghost function Run(s: State, steps: seq<Step>): State
    requires Legal(s, steps)
    decreases |steps|
  {
    if steps == [] then s else Run(Next(s, steps[0]), steps[1..])
  }

  ghost predicate Reachable(s: State) {
    exists steps :: Legal(Init(), steps) && Run(Init(), steps) == s
  }

  // ---------- the discipline of one transaction ----------

  /** Section 17.2.1 of RFC 3261: provisional responses, then at most one final one, and no response after it
      or after the transaction ended; a BYE only after a recorded success. */
  ghost predicate Disciplined(wire: seq<Signal>) {
    && (forall i, j :: 0 <= i < j < |wire| && wire[i].Final? ==> !wire[j].Final? && !wire[j].Provisional?)
    && (forall i, j :: 0 <= i < j < |wire| && wire[i].Terminate? ==> !wire[j].Final? && !wire[j].Provisional?)
    && (forall j :: 0 <= j < |wire| && wire[j].Bye? ==>
          exists i :: 0 <= i < j && wire[i].Final? && Success(wire[i].code))
  }

  /** What a call's fields say about its wire. */
  ghost predicate CallOk(call: Call) {
    && Disciplined(call.wire)
    && (call.finalStatus == 0 <==> forall i :: 0 <= i < |call.wire| ==> !call.wire[i].Final?)
    && (call.finalStatus != 0 ==> Final(call.finalStatus) in call.wire)
    && (Terminate in call.wire ==> call.ending.Ended?)
    && (call.ending.Ended? ==> call.pending.None?)
    && (call.ending.Ended? && call.outbound && Terminate !in call.wire ==> call.finalStatus != 0)
    // only a responder that had its check before the call was taken away can still hold the response lock
    && (call.pending.Some? ==>
          call.outbound && (call.ending.NotEnding? || call.ending.Taken?) && AnswerCode(call.pending.value))
    && (!call.outbound ==> call.wire == [])
  }

  lemma AppendDisciplined(wire: seq<Signal>, x: Signal)
    requires Disciplined(wire)
    requires x.Provisional? || x.Final? ==> forall i :: 0 <= i < |wire| ==> !wire[i].Final? && !wire[i].Terminate?
    requires x.Bye? ==> exists i :: 0 <= i < |wire| && wire[i].Final? && Success(wire[i].code)
    ensures Disciplined(wire + [x])
  {
    var w := wire + [x];
    forall j | 0 <= j < |w| && w[j].Bye?
      ensures exists i :: 0 <= i < j && w[i].Final? && Success(w[i].code)
    {
      var i :| 0 <= i < j && wire[i].Final? && Success(wire[i].code);
      assert w[i] == wire[i];
    }
  }

  lemma RespondKeeps(call: Call, code: int)
    requires CallOk(call) && call.outbound && !call.ending.Ended? && (IsFinal(code) ==> code != 0)
    ensures CallOk(RespondLocked(call, code).(pending := None))
    ensures RespondLocked(call, code).ending == call.ending
  {
    if call.finalStatus == 0 {
      var x := if IsFinal(code) then Final(code) else Provisional(code);
      AppendDisciplined(call.wire, x);
      assert (call.wire + [x])[|call.wire|] == x;
    }
  }

  lemma EndAnswerKeeps(call: Call)
    requires CallOk(call) && call.pending.None? && call.ending.Taken?
    ensures CallOk(EndAnswer(call))
  {
    if call.outbound { RespondKeeps(call, 503); }
  }

  lemma EndByeKeeps(call: Call)
    requires CallOk(call) && call.pending.None? && call.ending.Answered?
    ensures CallOk(EndBye(call))
  {
    if call.outbound && Success(call.finalStatus) { AppendDisciplined(call.wire, Bye); }
  }

  lemma EndTerminateKeeps(call: Call)
    requires CallOk(call) && call.pending.None? && call.ending.Farewelled?
    ensures CallOk(EndTerminate(call))
  {
    if call.outbound {
      AppendDisciplined(call.wire, Terminate);
      assert (call.wire + [Terminate])[|call.wire|] == Terminate;
      assert forall x :: x in call.wire + [Terminate] <==> x in call.wire || x == Terminate;
    }
  }

  // ---------- what holds in every reachable state ----------

  ghost predicate InvCalls(s: State) {
    forall c :: c in s.calls ==> CallOk(s.calls[c])
  }

  /** Who owns which call. */
  ghost predicate InvOwner(s: State) {
    // an idle manager has no call
    && (s.state == Idle ==> s.current.None?)
    // the current call is nobody's to end yet
    && (s.current.Some? ==> s.current.value in s.calls && s.calls[s.current.value].ending.NotEnding?)
    // an outbound call is never ringing, so no incoming call can push it out
    && (s.current.Some? && s.calls[s.current.value].outbound ==> s.state != Ringing)
    // an outbound call nobody has taken away is the current one: none is forgotten
    && (forall c :: c in s.calls && s.calls[c].outbound && s.calls[c].ending.NotEnding? ==> s.current == Some(c))
    // whoever is about to send belongs to a workflow that has not returned
    && (forall c :: c in s.calls && s.calls[c].pending.Some? ==> c in s.workflows)
  }

  ghost predicate InvStop(s: State) {
    && (s.stopPhase != Running <==> s.stopped)
    && (s.stopPhase in {FirstEnded, Drained, SecondEnded, Stopped} ==> s.state == Idle)
    && (s.stopPhase in {Drained, SecondEnded, Stopped} ==> s.workflows == {})
    && (s.stopPhase == Stopped ==> StopEndingsDone(s))
  }

  /** A call that Stop took away is answered before it is ended. */
  ghost predicate InvStopTook(s: State) {
    forall c :: c in s.stopTook ==>
      c in s.calls && !s.calls[c].ending.NotEnding?
      && (s.calls[c].outbound ==> s.calls[c].ending == Taken(true, true) || s.calls[c].finalStatus != 0)
      && (s.calls[c].outbound && s.calls[c].ending.Ended? ==> Terminate in s.calls[c].wire)
  }

  ghost predicate Inv(s: State) {
    InvCalls(s) && InvOwner(s) && InvStop(s) && InvStopTook(s)
  }

  lemma NextKeepsCalls(s: State, step: Step)
    requires Inv(s) && Enabled(s, step)
    ensures InvCalls(Next(s, step))
  {
    hide Disciplined, InvOwner, InvStop, InvStopTook;
    match step
    case DoReject(c, code) =>
      RefusalOk(code);
    case DoRegisterOutbound(c) => FreshOk(true);
    case DoRegisterInbound(c) => FreshOk(false);
    case DoSendPending(c) => RespondKeeps(s.calls[c], s.calls[c].pending.value);
    case DoEndAnswer(c) => EndAnswerKeeps(s.calls[c]);
    case DoEndBye(c) => EndByeKeeps(s.calls[c]);
    case DoEndTerminate(c) => EndTerminateKeeps(s.calls[c]);
    case DoLockResponse(c, code) => assert InvOwner(s); ActiveNotEnded(s, c);
    case DoTake(expected, signal) => TakeKeepsCalls(s, expected, signal);
    case DoStopEndFirst => TakeKeepsCalls(s, None, true);
    case DoStopEndSecond => TakeKeepsCalls(s, None, true);
    case _ =>
  }

  lemma RefusalOk(code: int)
    requires RefusalCode(code)
    ensures CallOk(Call(true, code, None, Ended, [Final(code)]))
  {
    assert [Final(code)][0] == Final(code);
  }

  lemma FreshOk(outbound: bool)
    ensures CallOk(Call(outbound, 0, None, NotEnding, []))
  {
  }

  lemma ActiveNotEnded(s: State, c: nat)
    requires InvOwner(s) && s.current == Some(c)
    ensures c in s.calls && s.calls[c].ending.NotEnding?
  {
  }

  lemma TakeKeepsCalls(s: State, expected: Option<nat>, signal: bool)
    requires InvCalls(s) && InvOwner(s)
    ensures InvCalls(TakeCall(s, expected, signal))
  {
    hide Disciplined;
  }

  lemma NextKeepsOwner(s: State, step: Step)
    requires Inv(s) && Enabled(s, step)
    ensures InvOwner(Next(s, step))
  {
    hide Disciplined, InvStopTook, InvStop, StopEndingsDone;
  }

  lemma NextKeepsStop(s: State, step: Step)
    requires Inv(s) && Enabled(s, step)
    ensures InvStop(Next(s, step))
  {
    hide Disciplined, InvCalls;
  }

  lemma NextKeepsStopTook(s: State, step: Step)
    requires Inv(s) && Enabled(s, step)
    ensures InvStopTook(Next(s, step))
  {
    hide CallOk;
    var s' := Next(s, step);
    forall c | c in s'.stopTook && c in s.stopTook && s'.calls[c] != s.calls[c] && step.DoEndTerminate?
      ensures s.calls[c].outbound ==> Terminate in s'.calls[c].wire
    {
      assert s.calls[c].outbound ==> s'.calls[c].wire[|s.calls[c].wire|] == Terminate;
    }
  }

  lemma NextKeeps(s: State, step: Step)
    requires Inv(s) && Enabled(s, step)
    ensures Inv(Next(s, step))
  {
    NextKeepsCalls(s, step);
    NextKeepsOwner(s, step);
    NextKeepsStop(s, step);
    NextKeepsStopTook(s, step);
  }

  lemma {:induction false} RunKeeps(s: State, steps: seq<Step>)
    requires Inv(s) && Legal(s, steps)
    ensures Inv(Run(s, steps))
    decreases |steps|
  {
    hide Inv, Next, Enabled;
    if steps != [] {
      NextKeeps(s, steps[0]);
      RunKeeps(Next(s, steps[0]), steps[1..]);
    }
  }

  lemma Safety(s: State)
    requires Reachable(s)
    ensures Inv(s)
  {
    var steps :| Legal(Init(), steps) && Run(Init(), steps) == s;
    RunKeeps(Init(), steps);
  }

  /** Every outbound INVITE, at every moment of every run, has seen a disciplined sequence of responses. */
  lemma TransactionDiscipline(s: State, c: nat)
    requires Reachable(s) && c in s.calls
    ensures Disciplined(s.calls[c].wire)
    ensures s.calls[c].finalStatus != 0 ==> Final(s.calls[c].finalStatus) in s.calls[c].wire
  {
    Safety(s);
  }

  lemma WireStep(s: State, step: Step, c: nat)
    requires Inv(s) && Enabled(s, step) && c in s.calls
    ensures c in Next(s, step).calls && s.calls[c].wire <= Next(s, step).calls[c].wire
    ensures s.calls[c].ending.Ended? ==> Next(s, step).calls[c] == s.calls[c]
  {
    assert CallOk(s.calls[c]);
    hide CallOk, InvStopTook, InvStop, InvCalls;
  }

  /** What was sent stays sent, and after an ending nothing is ever sent again: not even by a responder that
      had passed its check before the call was taken away. */
  lemma {:induction false} EndedIsSilent(s: State, steps: seq<Step>, c: nat)
    requires Inv(s) && Legal(s, steps) && c in s.calls
    ensures c in Run(s, steps).calls && s.calls[c].wire <= Run(s, steps).calls[c].wire
    ensures s.calls[c].ending.Ended? ==> Run(s, steps).calls[c] == s.calls[c]
    decreases |steps|
  {
    hide Inv, Next, Enabled;
    if steps != [] {
      NextKeeps(s, steps[0]);
      WireStep(s, steps[0], c);
      EndedIsSilent(Next(s, steps[0]), steps[1..], c);
    }
  }

  /** When Stop has returned the manager is idle, no workflow runs, and nothing that happens later changes that. */
  lemma {:induction false} StoppedForGood(s: State, steps: seq<Step>)
    requires Inv(s) && Legal(s, steps) && s.stopPhase == Stopped
    ensures var s' := Run(s, steps);
            s'.stopPhase == Stopped && s'.state == Idle && s'.current.None? && s'.workflows == {}
            && (forall w :: !Enabled(s', DoBegin(w)))
    decreases |steps|
  {
    if steps != [] {
      hide CallOk, InvStopTook;
      NextKeeps(s, steps[0]);
      StoppedForGood(Next(s, steps[0]), steps[1..]);
    }
  }

  /** Then, too, every outbound INVITE that Stop cut off has had its final response and its end, and no other
      outbound call is left that nobody is ending. */
  lemma StopAnswersEverybody(s: State, c: nat)
    requires Reachable(s) && s.stopPhase == Stopped && c in s.calls && s.calls[c].outbound
    ensures !s.calls[c].ending.NotEnding?
    ensures c in s.stopTook ==> s.calls[c].finalStatus != 0 && Terminate in s.calls[c].wire
  {
    Safety(s);
  }

  /** What Stop has taken away stays so. */
  lemma {:induction false} StopKeepsWhatItTook(s: State, steps: seq<Step>)
    requires Legal(s, steps)
    ensures s.stopTook <= Run(s, steps).stopTook
    decreases |steps|
  {
    if steps != [] {
      assert s.stopTook <= Next(s, steps[0]).stopTook;
      hide Next, Enabled;
      StopKeepsWhatItTook(Next(s, steps[0]), steps[1..]);
    }
  }

  /** The outbound call that is current when Stop comes to end it has its final response and its end when Stop returns,
      whatever happens in between. */
  lemma StopAnswersCurrent(s: State, steps: seq<Step>, c: nat)
    requires Reachable(s) && s.current == Some(c) && c in s.calls && s.calls[c].outbound
    requires Legal(s, steps) && steps != [] && (steps[0] == DoStopEndFirst || steps[0] == DoStopEndSecond)
    requires Run(s, steps).stopPhase == Stopped
    ensures c in Run(s, steps).calls && Run(s, steps).calls[c].finalStatus != 0
    ensures Terminate in Run(s, steps).calls[c].wire
  {
    Safety(s);
    RunKeeps(s, steps);
    var s1 := Next(s, steps[0]);
    assert c in s1.stopTook && c in s1.calls && s1.calls[c].outbound && !s1.calls[c].ending.NotEnding?;
    NextKeeps(s, steps[0]);
    StopKeepsWhatItTook(s1, steps[1..]);
    OutboundStays(s1, steps[1..], c);
    hide Next, Enabled, InvCalls, InvOwner, Legal, CallOk;
  }

  lemma OutboundStep(s: State, step: Step, c: nat)
    requires Enabled(s, step) && c in s.calls
    ensures c in Next(s, step).calls && Next(s, step).calls[c].outbound == s.calls[c].outbound
  {
  }

  lemma {:induction false} OutboundStays(s: State, steps: seq<Step>, c: nat)
    requires Inv(s) && Legal(s, steps) && c in s.calls
    ensures c in Run(s, steps).calls && Run(s, steps).calls[c].outbound == s.calls[c].outbound
    decreases |steps|
  {
    if steps != [] {
      NextKeeps(s, steps[0]);
      OutboundStep(s, steps[0], c);
      hide Next, Enabled, Inv;
      OutboundStays(Next(s, steps[0]), steps[1..], c);
    }
  }

  // ---------- a call that is ended without an answer ----------

  /** Whether a call that was taken away has its final response or will get one: the one recorded, one whose sender
      holds the response lock, or the 503 of an ending under Stop. */
  predicate WillBeAnswered(call: Call) {
    call.finalStatus != 0 ||
    (call.ending.Taken? &&
      ((call.pending.Some? && IsFinal(call.pending.value)) || (call.ending.signal && call.ending.stopped)))
  }

  lemma AnswerIsSettled(s: State, step: Step, c: nat)
    requires Inv(s) && Enabled(s, step) && c in s.calls && s.calls[c].outbound && !s.calls[c].ending.NotEnding?
    ensures c in Next(s, step).calls && Next(s, step).calls[c].outbound && !Next(s, step).calls[c].ending.NotEnding?
    ensures WillBeAnswered(Next(s, step).calls[c]) == WillBeAnswered(s.calls[c])
  {
    assert CallOk(s.calls[c]);
    hide Disciplined, InvCalls, InvStop, InvStopTook;
  }

  /** For every outbound call that is taken away, in every continuation that brings it to its end: it ends without a
      final response exactly when none was recorded, none was on its way, and it was not Stop that ended it with a
      signal. */
  lemma {:induction false} UnansweredExactly(s: State, steps: seq<Step>, c: nat)
    requires Inv(s) && Legal(s, steps) && c in s.calls && s.calls[c].outbound && !s.calls[c].ending.NotEnding?
    ensures var s' := Run(s, steps);
            c in s'.calls &&
            (s'.calls[c].ending.Ended? ==> (s'.calls[c].finalStatus == 0 <==> !WillBeAnswered(s.calls[c])))
    decreases |steps|
  {
    hide Inv, Next, Enabled;
    if steps != [] {
      NextKeeps(s, steps[0]);
      AnswerIsSettled(s, steps[0], c);
      UnansweredExactly(Next(s, steps[0]), steps[1..], c);
    }
  }

  lemma ReachableNext(s: State, step: Step)
    requires Reachable(s) && Enabled(s, step)
    ensures Reachable(Next(s, step))
  {
    hide Next, Enabled;
    var xs :| Legal(Init(), xs) && Run(Init(), xs) == s;
    RunOneMore(Init(), xs, step);
    assert Legal(Init(), xs + [step]);
  }

  lemma {:induction false} RunOneMore(s: State, xs: seq<Step>, step: Step)
    requires Legal(s, xs) && Enabled(Run(s, xs), step)
    ensures Legal(s, xs + [step]) && Run(s, xs + [step]) == Next(Run(s, xs), step)
    decreases |xs|
  {
    hide Next, Enabled;
    if xs == [] {
      assert [] + [step] == [step] && [step][1..] == [];
      var s' := Next(s, step);
      assert Legal(s', []) && Run(s', []) == s';
    } else {
      RunOneMore(Next(s, xs[0]), xs[1..], step);
      assert (xs + [step])[1..] == xs[1..] + [step];
    }
  }

  /** It happens: the other side hangs up while the call is being dialled, and the transaction is ended unanswered. */
  lemma UnansweredRun()
    ensures exists s :: Reachable(s) && !s.stopped &&
              1 in s.calls && s.calls[1] == Call(true, 0, None, Ended, [Terminate])
  {
    var s := Init();
    assert Legal(s, []) && Run(s, []) == s;
    var c := Call(true, 0, None, NotEnding, []);
    var steps := [DoBegin(1), DoRegisterOutbound(1), DoTake(None, true)];
    ReachableNext(s, steps[0]);
    var s1 := Next(s, steps[0]);
    ReachableNext(s1, steps[1]);
    var s2 := Next(s1, steps[1]);
    ReachableNext(s2, steps[2]);
    var s3 := Next(s2, steps[2]);
    assert s3.calls == map[1 := c.(ending := Taken(true, false))];
    ReachableNext(s3, DoEndAnswer(1));
    var s4 := Next(s3, DoEndAnswer(1));
    ReachableNext(s4, DoEndBye(1));
    var s5 := Next(s4, DoEndBye(1));
    ReachableNext(s5, DoEndTerminate(1));
    var s6 := Next(s5, DoEndTerminate(1));
    assert s6.calls[1] == Call(true, 0, None, Ended, [Terminate]);
  }

  // ---------- what callers see ----------

  predicate HasFinal(wire: seq<Signal>) {
    exists i :: 0 <= i < |wire| && wire[i].Final?
  }

  /** A response that was decided on goes out as it is, unless the transaction has its final response; that one
      stays. */
  lemma ResponseGoesOut(s: State, c: nat)
    requires Reachable(s) && Enabled(s, DoSendPending(c))
    ensures var was, call := s.calls[c], Next(s, DoSendPending(c)).calls[c];
            var code := was.pending.value;
            if HasFinal(was.wire) then call.wire == was.wire
            else call.wire == was.wire + [if code >= 200 then Final(code) else Provisional(code)]
  {
    Safety(s);
    assert CallOk(s.calls[c]);
  }

  /** One response of the workflow of call 1, from its decision to its sending. */
  lemma Responds(s: State, code: int) returns (s': State)
    requires Reachable(s) && Enabled(s, DoLockResponse(1, code)) && s.calls[1].finalStatus == 0
    ensures Reachable(s')
    ensures var x := if code >= 200 then Final(code) else Provisional(code);
            var call := s.calls[1].(finalStatus := if code >= 200 then code else 0, pending := None);
            s' == s.(calls := s.calls[1 := call.(wire := call.wire + [x])])
  {
    var s1 := Next(s, DoLockResponse(1, code));
    ReachableNext(s, DoLockResponse(1, code));
    ReachableNext(s1, DoSendPending(1));
    s' := Next(s1, DoSendPending(1));
  }

  /** Call 1 has been dialled and rings. */
  lemma RingingCall() returns (s: State)
    ensures Reachable(s)
    ensures s == State(Dialing, false, Some(1), map[1 := Call(true, 0, None, NotEnding, [Provisional(180)])], {1},
                       Running, {})
  {
    var s0 := Init();
    assert Legal(s0, []) && Run(s0, []) == s0;
    ReachableNext(s0, DoBegin(1));
    var s1 := Next(s0, DoBegin(1));
    ReachableNext(s1, DoRegisterOutbound(1));
    var s2 := Next(s1, DoRegisterOutbound(1));
    s := Responds(s2, 180);
    assert s.workflows == {1} && s.calls[1].wire == [Provisional(180)];
    assert s.calls == map[1 := s.calls[1]];
  }

  /** The three sections of an ending, when nobody else comes between them. */
  lemma Ends(s: State) returns (s': State)
    requires Reachable(s) && 1 in s.calls && s.calls[1].ending.Taken? && s.calls[1].pending == None
    ensures Reachable(s') && s' == s.(calls := s.calls[1 := EndTerminate(EndBye(EndAnswer(s.calls[1])))])
  {
    ReachableNext(s, DoEndAnswer(1));
    var s1 := Next(s, DoEndAnswer(1));
    ReachableNext(s1, DoEndBye(1));
    var s2 := Next(s1, DoEndBye(1));
    ReachableNext(s2, DoEndTerminate(1));
    s' := Next(s2, DoEndTerminate(1));
    assert s'.calls == s.calls[1 := s'.calls[1]];
  }

  /** An ordinary call: it rings, is answered, and is ended by this side with a BYE. */
  lemma OrdinaryCall()
    ensures exists s :: Reachable(s) && !s.stopped && s.state == Idle && s.workflows == {}
              && s.calls == map[1 := Call(true, 200, None, Ended, [Provisional(180), Final(200), Bye, Terminate])]
  {
    var s1 := RingingCall();
    var s2 := Responds(s1, 200);
    assert s2.calls[1].wire == [Provisional(180), Final(200)];
    ReachableNext(s2, DoReturn(1));
    var s3 := Next(s2, DoReturn(1));
    ReachableNext(s3, DoTake(Some(1), true));
    var s4 := Next(s3, DoTake(Some(1), true));
    hide Reachable, Next, Enabled;
    var s5 := Ends(s4);
    assert s5.calls[1].wire == [Provisional(180), Final(200), Bye, Terminate];
    assert s5.calls == map[1 := s5.calls[1]];
  }

  /** A call that Stop finds ringing: it is answered with 503. */
  lemma StoppedCall()
    ensures exists s :: Reachable(s) && s.stopped && s.state == Idle
              && s.calls == map[1 := Call(true, 503, None, Ended, [Provisional(180), Final(503), Terminate])]
  {
    var s1 := RingingCall();
    ReachableNext(s1, DoStop);
    var s2 := Next(s1, DoStop);
    ReachableNext(s2, DoStopEndFirst);
    var s3 := Next(s2, DoStopEndFirst);
    hide Reachable, Next, Enabled;
    var s4 := Ends(s3);
    assert s4.calls[1].wire == [Provisional(180), Final(503), Terminate];
    assert s4.calls == map[1 := s4.calls[1]];
  }

  // ---------- the manager as the program keeps it ----------

  class Manager {
    var state: CallState
    var stopped: bool
    var currentCall: Option<nat>
    /** The call objects, by number. */
    var calls: map<nat, Call>
    var workflows: set<nat>
    ghost var stopPhase: StopPhase
    ghost var stopTook: set<nat>

    ghost function Abs(): State
      reads this
    {
      State(state, stopped, currentCall, calls, workflows, stopPhase, stopTook)
    }

    constructor ()
      ensures Abs() == Init() && Inv(Abs())
    {
      state, stopped, currentCall, calls, workflows := Idle, false, None, map[], {};
      stopPhase, stopTook := Running, {};
    }

    method BeginCallWorkflow(w: nat) returns (begun: bool)
      requires Inv(Abs()) && w !in workflows && w !in calls
      modifies this`workflows
      ensures begun == Enabled(old(Abs()), DoBegin(w))
      ensures begun == !stopped && workflows == old(workflows) + (if begun then {w} else {})
      ensures Inv(Abs()) && Abs() == if begun then Next(old(Abs()), DoBegin(w)) else old(Abs())
    {
      hide Inv;
      if stopped { return false; }
      NextKeeps(Abs(), DoBegin(w));
      workflows := workflows + {w};
      return true;
    }

    /** The first section of an outbound call: refuse it with one final response, or make it the current call. An INVITE
        without a To header is refused before the lock is taken. */
    method StartOutbound(c: nat, hasTo: bool) returns (refusal: int)
      requires Inv(Abs()) && c in workflows && c !in calls
      modifies this`state, this`currentCall, this`calls
      ensures refusal == (if !hasTo then 400 else if old(stopped) then 503 else if old(state) != Idle then 486 else 0)
      ensures calls == old(calls)[c := if refusal != 0 then Call(true, refusal, None, Ended, [Final(refusal)])
                                       else Call(true, 0, None, NotEnding, [])]
      ensures state == (if refusal != 0 then old(state) else Dialing)
      ensures currentCall == (if refusal != 0 then old(currentCall) else Some(c))
      ensures Inv(Abs())
      ensures Abs() == Next(old(Abs()), if refusal != 0 then DoReject(c, refusal) else DoRegisterOutbound(c))
    {
      hide Inv;
      refusal := if !hasTo then 400 else if stopped then 503 else if state != Idle then 486 else 0;
      NextKeeps(Abs(), if refusal != 0 then DoReject(c, refusal) else DoRegisterOutbound(c));
      if refusal != 0 {
        calls := calls[c := Call(true, refusal, None, Ended, [Final(refusal)])];
      } else {
        calls := calls[c := Call(true, 0, None, NotEnding, [])];
        state, currentCall := Dialing, Some(c);
      }
    }

    /** respondForActiveCall up to the moment it holds the response lock and lets go of the manager's. */
    method LockForActiveCall(c: nat, code: int) returns (locked: bool)
      requires Inv(Abs()) && c in workflows && Unlocked(Abs(), c) && calls[c].outbound && AnswerCode(code)
      modifies this`calls
      ensures locked == (!stopped && currentCall == Some(c) && state != Idle)
      ensures calls == if locked then old(calls)[c := old(calls)[c].(pending := Some(code))] else old(calls)
      ensures Inv(Abs()) && Abs() == if locked then Next(old(Abs()), DoLockResponse(c, code)) else old(Abs())
    {
      hide Inv;
      if stopped || currentCall != Some(c) || state == Idle { return false; }
      NextKeeps(Abs(), DoLockResponse(c, code));
      calls := calls[c := calls[c].(pending := Some(code))];
      return true;
    }

    /** respondServerLocked, and the release of the response lock. */
    method SendPending(c: nat) returns (sent: bool)
      requires Inv(Abs()) && Enabled(Abs(), DoSendPending(c))
      modifies this`calls
      ensures sent == (old(calls)[c].finalStatus == 0)
      // provisional responses go out as they are; the first final one is recorded; after it nothing is sent
      ensures var was, code := old(calls)[c], old(calls)[c].pending.value;
              && c in calls && calls == old(calls)[c := calls[c]] && calls[c].pending == None
              && calls[c].wire ==
                 was.wire + (if !sent then [] else [if code >= 200 then Final(code) else Provisional(code)])
              && calls[c].finalStatus == (if sent && code >= 200 then code else was.finalStatus)
              && calls[c].ending == was.ending && calls[c].outbound == was.outbound
      ensures Inv(Abs()) && Abs() == Next(old(Abs()), DoSendPending(c))
    {
      hide Inv;
      NextKeeps(Abs(), DoSendPending(c));
      var call := calls[c];
      sent := call.finalStatus == 0;
      if sent {
        var code := call.pending.value;
        if IsFinal(code) { call := call.(finalStatus := code); }
        call := call.(wire := call.wire + [if IsFinal(code) then Final(code) else Provisional(code)]);
      }
      calls := calls[c := call.(pending := None)];
    }

    /** endCallAndHangupIfCurrent up to the release of the manager's lock. */
    method TakeCurrent(expected: Option<nat>, signal: bool) returns (taken: Option<nat>)
      requires Inv(Abs())
      modifies this`state, this`currentCall, this`calls
      ensures taken == if expected.Some? && old(currentCall) != expected then None else old(currentCall)
      ensures expected.None? || old(currentCall) == expected ==> state == Idle && currentCall == None
      ensures expected.Some? && old(currentCall) != expected ==> Abs() == old(Abs())
      ensures taken.Some? ==>
                taken.value in old(calls) &&
                calls == old(calls)[taken.value := old(calls)[taken.value].(ending := Taken(signal, stopped))]
      ensures Inv(Abs()) && Abs() == Next(old(Abs()), DoTake(expected, signal))
    {
      NextKeeps(Abs(), DoTake(expected, signal));
      if expected.Some? && currentCall != expected { return None; }
      if state == Idle && currentCall.None? { return None; }
      taken := currentCall;
      state := Idle;
      currentCall := None;
      if taken.Some? {
        calls := calls[taken.value := calls[taken.value].(ending := Taken(signal, stopped))];
      }
    }

    /** The rest of the ending when nobody else holds the response lock in between: the 503 under Stop, the BYE
        after a recorded success, and the end of the server transaction. */
    method FinishEnding(c: nat)
      requires Inv(Abs()) && Unlocked(Abs(), c) && calls[c].ending.Taken?
      modifies this`calls
      ensures Inv(Abs()) && c in calls && calls == old(calls)[c := calls[c]] && calls[c].ending.Ended?
      ensures var was := old(calls)[c];
              var last := if was.finalStatus == 0 && was.ending.signal && was.ending.stopped
                  then 503 else was.finalStatus;
              was.outbound ==>
                calls[c].finalStatus == last
                && calls[c].wire == was.wire + (if last != was.finalStatus then [Final(503)] else [])
                   + (if was.ending.signal && 200 <= last < 300 then [Bye] else []) + [Terminate]
    {
      hide Inv;
      var call := calls[c];
      var signal := call.ending.signal;
      NextKeeps(Abs(), DoEndAnswer(c));
      if call.outbound && signal && call.ending.stopped && call.finalStatus == 0 {
        call := call.(finalStatus := 503, wire := call.wire + [Final(503)]);
      }
      call := call.(ending := Answered(signal));
      calls := calls[c := call];
      NextKeeps(Abs(), DoEndBye(c));
      if call.outbound && signal && Success(call.finalStatus) { call := call.(wire := call.wire + [Bye]); }
      call := call.(ending := Farewelled);
      calls := calls[c := call];
      NextKeeps(Abs(), DoEndTerminate(c));
      if call.outbound { call := call.(wire := call.wire + [Terminate]); }
      calls := calls[c := call.(ending := Ended)];
    }

    method MarkStopped()
      requires Inv(Abs()) && stopPhase == Running
      modifies this`stopped, this`stopPhase
      ensures Inv(Abs()) && Abs() == Next(old(Abs()), DoStop) && stopped
    {
      hide Inv;
      NextKeeps(Abs(), DoStop);
      stopped := true;
      stopPhase := Stopping;
    }
  }
}
