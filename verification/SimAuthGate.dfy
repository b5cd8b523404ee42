/** The SIM-auth readiness gate: one probe at a time, shared by every waiting caller, and void as soon as the
    card is invalidated. Channels are numbers; closing one wakes whoever waits on it. */
module SimAuthGate {
  import opened Common

  /** Where a caller of WaitSIMAuthReady stands. */
  datatype Caller =
    | Looping
    | Waiting(chan: nat)
    | Probing(generation: nat, chan: nat)
    | Returned(ok: bool)

  /** The history of the gate. A probe goes by the number of its channel. */
  datatype Event =
    | Began(probe: nat)
    | Succeeded(probe: nat)
    | Closed(chan: nat)
    | Invalidated

  datatype State = State(
    generation: nat,
    ready: bool,
    probing: bool,
    waitC: Option<nat>,
    nextChan: nat,
    callers: map<nat, Caller>,
    log: seq<Event>)

  function Init(): State {
    State(0, false, false, None, 0, map[], [])
  }

  // ---------- the critical sections ----------

  function Invalidate(s: State): State {
    s.(generation := s.generation + 1, ready := false, log := s.log + [Invalidated])
  }

  /** The first section of a turn of the loop: return, wait, or start a probe. */
  function Enter(s: State, c: nat): State {
    if s.ready then s.(callers := s.callers[c := Returned(true)])
    else if s.probing then
      // the program makes a channel here when there is none
      var ch := if s.waitC.Some? then s.waitC.value else s.nextChan;
      s.(waitC := Some(ch), nextChan := if s.waitC.Some? then s.nextChan else s.nextChan + 1,
         callers := s.callers[c := Waiting(ch)])
    else
      s.(probing := true, waitC := Some(s.nextChan), nextChan := s.nextChan + 1,
         callers := s.callers[c := Probing(s.generation, s.nextChan)], log := s.log + [Began(s.nextChan)])
  }

  /** The second section, after the probe has answered. */
  function Finish(s: State, c: nat, began: nat, ch: nat, ok: bool): State {
    var stale := s.generation != began;
    var outcome := if !ok then Returned(false) else if stale then Looping else Returned(true);
    var closes := s.waitC == Some(ch);
    s.(ready := if stale then s.ready else ok,
       waitC := if closes then None else s.waitC,
       probing := false,
       callers := s.callers[c := outcome],
       log := s.log + (if ok then [Succeeded(ch)] else []) + (if closes then [Closed(ch)] else []))
  }

  datatype Step =
    | DoArrive(caller: nat)
    | DoGiveUp(caller: nat)
    | DoEnter(caller: nat)
    | DoFinish(caller: nat, ok: bool)
    | DoWake(caller: nat)
    | DoInvalidate

  ghost predicate Enabled(s: State, step: Step) {
    match step
    case DoArrive(c) => c !in s.callers
    case DoGiveUp(c) => c in s.callers && (s.callers[c].Looping? || s.callers[c].Waiting?)
    case DoEnter(c) => c in s.callers && s.callers[c].Looping?
    case DoFinish(c, _) => c in s.callers && s.callers[c].Probing?
    case DoWake(c) => c in s.callers && s.callers[c].Waiting? && Closed(s.callers[c].chan) in s.log
    case DoInvalidate => true
  }

  ghost function Next(s: State, step: Step): State
    requires Enabled(s, step)
  {
    match step
    case DoArrive(c) => s.(callers := s.callers[c := Looping])
    case DoGiveUp(c) => s.(callers := s.callers[c := Returned(false)])
    case DoEnter(c) => Enter(s, c)
    case DoFinish(c, ok) => Finish(s, c, s.callers[c].generation, s.callers[c].chan, ok)
    case DoWake(c) => s.(callers := s.callers[c := Looping])
    case DoInvalidate => Invalidate(s)
  }

  ghost predicate Legal(s: State, steps: seq<Step>)
    decreases |steps|
  {
    steps == [] || (Enabled(s, steps[0]) && Legal(Next(s, steps[0]), steps[1..]))
  }

  ghost function Run(s: State, steps: seq<Step>): State
    requires Legal(s, steps)
    decreases |steps|
  {
    if steps == [] then s else Run(Next(s, steps[0]), steps[1..])
  }

  ghost predicate Reachable(s: State) {
    exists steps :: Legal(Init(), steps) && Run(Init(), steps) == s
  }

  // ---------- what holds in every reachable state ----------

  ghost predicate IsProber(s: State, c: nat) {
    c in s.callers && s.callers[c].Probing?
  }

  /** At most one probe is in flight, it is flagged, and it carries the channel that waiters are given. */
  ghost predicate SingleFlight(s: State) {
    && (s.probing <==> exists c :: IsProber(s, c))
    && (forall c, d :: IsProber(s, c) && IsProber(s, d) ==> c == d)
    && (s.probing <==> s.waitC.Some?)
    && (s.probing ==> !s.ready)
    && (forall c :: IsProber(s, c) ==> s.waitC == Some(s.callers[c].chan) && s.callers[c].generation <= s.generation)
  }

  /** The log has an entry for the beginning of this probe and no invalidation after it. */
  ghost predicate BegunSince(log: seq<Event>, i: nat, probe: nat) {
    i < |log| && log[i] == Began(probe) && forall k :: i < k < |log| ==> !log[k].Invalidated?
  }

  /** Readiness was earned: a probe that began after the last invalidation has succeeded. */
  ghost predicate Earned(s: State) {
    s.ready ==> exists i: nat, j: nat, probe :: i < j && BegunSince(s.log, i, probe)
                  && j < |s.log| && s.log[j] == Succeeded(probe)
  }

  /** A probe of the current generation began after the last invalidation. */
  ghost predicate Current(s: State) {
    forall c :: IsProber(s, c) && s.callers[c].generation == s.generation ==>
      exists i: nat :: BegunSince(s.log, i, s.callers[c].chan)
  }

  /** Every channel is closed at most once, and whoever waits has a channel that is closed or will be. */
  ghost predicate Channels(s: State) {
    && (forall i, j :: 0 <= i < j < |s.log| && s.log[i].Closed? && s.log[j].Closed? ==> s.log[i].chan != s.log[j].chan)
    && (forall i :: 0 <= i < |s.log| && s.log[i].Closed? ==>
          s.log[i].chan < s.nextChan && s.waitC != Some(s.log[i].chan))
    && (s.waitC.Some? ==> s.waitC.value < s.nextChan)
    && (forall c :: c in s.callers && s.callers[c].Waiting? ==>
          s.waitC == Some(s.callers[c].chan) || Closed(s.callers[c].chan) in s.log)
  }

  ghost predicate Inv(s: State) {
    SingleFlight(s) && Earned(s) && Current(s) && Channels(s)
  }

  /** A longer log that has no new invalidation. */
  lemma StillBegun(log: seq<Event>, more: seq<Event>, i: nat, probe: nat)
    requires BegunSince(log, i, probe) && Invalidated !in more
    ensures BegunSince(log + more, i, probe)
  {
  }

  lemma EnterKeeps(s: State, c: nat)
    requires Inv(s) && Enabled(s, DoEnter(c))
    ensures Inv(Enter(s, c))
  {
    var s' := Enter(s, c);
    if !s.ready && !s.probing {
      assert IsProber(s', c);
      forall d | IsProber(s', d) ensures d == c { assert d != c ==> IsProber(s, d); }
      assert BegunSince(s'.log, |s.log|, s.nextChan);
    } else {
      forall d ensures IsProber(s', d) == IsProber(s, d) {}
    }
  }

  /** A successful probe that is not overtaken earns readiness. */
  lemma FinishEarns(s: State, c: nat, ok: bool)
    requires Inv(s) && Enabled(s, DoFinish(c, ok))
    ensures Earned(Next(s, DoFinish(c, ok)))
  {
    var s' := Next(s, DoFinish(c, ok));
    assert IsProber(s, c);
    if s'.ready {
      var ch := s.callers[c].chan;
      var i: nat :| BegunSince(s.log, i, ch);
      StillBegun(s.log, [Succeeded(ch), Closed(ch)], i, ch);
      assert s'.log == s.log + [Succeeded(ch), Closed(ch)];
      assert s'.log[|s.log|] == Succeeded(ch);
    }
  }

  lemma FinishKeeps(s: State, c: nat, ok: bool)
    requires Inv(s) && Enabled(s, DoFinish(c, ok))
    ensures Inv(Next(s, DoFinish(c, ok)))
  {
    FinishEarns(s, c, ok);
    hide Earned, BegunSince;
    var s' := Next(s, DoFinish(c, ok));
    assert IsProber(s, c);
    forall d ensures !IsProber(s', d) { assert IsProber(s', d) ==> IsProber(s, d); }
    var ch := s.callers[c].chan;
    var middle := s.log + (if ok then [Succeeded(ch)] else []);
    assert s'.log == middle + [Closed(ch)];
    assert forall e :: e in s.log ==> e in s'.log;
    assert s'.log[|middle|] == Closed(ch);
  }

  lemma NextKeeps(s: State, step: Step)
    requires Inv(s) && Enabled(s, step)
    ensures Inv(Next(s, step))
  {
    match step
    case DoEnter(c) => EnterKeeps(s, c);
    case DoFinish(c, ok) => FinishKeeps(s, c, ok);
    case DoInvalidate => InvalidateKeeps(s);
    case _ =>
      var s' := Next(s, step);
      forall d ensures IsProber(s', d) == IsProber(s, d) {}
  }

  lemma InvalidateKeeps(s: State)
    requires Inv(s)
    ensures Inv(Invalidate(s))
  {
    var s' := Invalidate(s);
    forall d ensures IsProber(s', d) == IsProber(s, d) {}
    assert forall c :: c in s.callers && s.callers[c].Waiting? && Closed(s.callers[c].chan) in s.log ==>
      Closed(s.callers[c].chan) in s'.log;
  }

  lemma {:induction false} RunKeeps(s: State, steps: seq<Step>)
    requires Inv(s) && Legal(s, steps)
    ensures Inv(Run(s, steps))
    decreases |steps|
  {
    if steps != [] {
      NextKeeps(s, steps[0]);
      RunKeeps(Next(s, steps[0]), steps[1..]);
    }
  }

  lemma Safety(s: State)
    requires Reachable(s)
    ensures Inv(s)
  {
    var steps :| Legal(Init(), steps) && Run(Init(), steps) == s;
    RunKeeps(Init(), steps);
  }

  /** The branch that makes a channel for a probe without one is never taken. */
  lemma NilChannelBranchIsDead(s: State)
    requires Reachable(s) && s.probing
    ensures s.waitC.Some?
  {
    Safety(s);
  }

  /** Nobody waits for a probe that is over: with no probe in flight every waiter can wake. */
  lemma NoWaiterIsForgotten(s: State, c: nat)
    requires Reachable(s) && c in s.callers && s.callers[c].Waiting? && (forall d :: !IsProber(s, d))
    ensures Enabled(s, DoWake(c))
  {
    Safety(s);
  }

  /** A nil return is given at an instant when the gate is ready by a probe of that very generation. */
  lemma NilMeansReady(s: State, step: Step, c: nat)
    requires Reachable(s) && Enabled(s, step)
    requires c in s.callers && s.callers[c] != Returned(true)
    requires c in Next(s, step).callers && Next(s, step).callers[c] == Returned(true)
    ensures Next(s, step).ready && Earned(Next(s, step))
  {
    Safety(s);
    NextKeeps(s, step);
  }

  /** A probe that was overtaken by an invalidation never makes the gate ready, and its caller probes again. */
  lemma StaleProbeIsVoid(s: State, c: nat, ok: bool)
    requires Reachable(s) && Enabled(s, DoFinish(c, ok)) && s.callers[c].generation != s.generation
    ensures var s' := Next(s, DoFinish(c, ok));
            s'.ready == s.ready && (s'.callers[c] == if ok then Looping else Returned(false))
            && !s'.ready
  {
    Safety(s);
  }

  /** An invalidation voids the probe in flight, whatever it answers: the gate stays unready, and its caller does not
      return success. */
  lemma InvalidationVoids(s: State, c: nat, ok: bool)
    requires Reachable(s) && IsProber(s, c)
    ensures var s' := Next(Next(s, DoInvalidate), DoFinish(c, ok));
            !s'.ready && s'.callers[c] != Returned(true)
  {
    Safety(s);
  }

  /** A caller fails only when it gives up or its own probe fails; what others do never fails it. */
  lemma FailsOnlyByItself(s: State, step: Step, c: nat)
    requires Enabled(s, step) && c in s.callers && s.callers[c] != Returned(false)
    ensures c in Next(s, step).callers
    ensures Next(s, step).callers[c] == Returned(false) <==> step == DoGiveUp(c) || step == DoFinish(c, false)
  {
  }

  lemma OneStepMore(s: State, step: Step, rest: seq<Step>)
    requires Enabled(s, step) && Legal(Next(s, step), rest)
    ensures Legal(s, [step] + rest) && Run(s, [step] + rest) == Run(Next(s, step), rest)
  {
    assert ([step] + rest)[1..] == rest;
  }

  /** The probe of a caller that finds the gate unready and free. */
  lemma ProbeSucceeds(s: State, c: nat) returns (steps: seq<Step>)
    requires Inv(s) && c in s.callers && s.callers[c].Looping? && (forall d :: !IsProber(s, d))
    ensures Legal(s, steps) && c in Run(s, steps).callers && Run(s, steps).callers[c] == Returned(true)
    ensures forall step :: step in steps ==> step == DoEnter(c) || step == DoFinish(c, true)
  {
    var s1 := Next(s, DoEnter(c));
    if s.ready {
      assert Legal(s1, []) && Run(s1, []) == s1;
      OneStepMore(s, DoEnter(c), []);
      steps := [DoEnter(c)] + [];
    } else {
      NextKeeps(s, DoEnter(c));
      var s2 := Next(s1, DoFinish(c, true));
      assert Legal(s2, []) && Run(s2, []) == s2;
      OneStepMore(s1, DoFinish(c, true), []);
      OneStepMore(s, DoEnter(c), [DoFinish(c, true)] + []);
      steps := [DoEnter(c)] + ([DoFinish(c, true)] + []);
    }
  }

  /** From every reachable state every caller can still succeed, when probes succeed: by turns of its own, after the
      probe under way. */
  lemma EveryoneCanSucceed(s: State, c: nat) returns (steps: seq<Step>)
    requires Reachable(s) && c in s.callers && !s.callers[c].Returned?
    ensures Legal(s, steps) && c in Run(s, steps).callers && Run(s, steps).callers[c] == Returned(true)
    ensures forall step :: step in steps ==>
              step == DoWake(c) || step == DoEnter(c) || (step.DoFinish? && step.ok)
  {
    Safety(s);
    hide Inv;
    if d :| IsProber(s, d) {
      var step := DoFinish(d, true);
      NextKeeps(s, step);
      var s1 := Next(s, step);
      assert forall e :: !IsProber(s1, e) by { NoProberAfter(s, d); }
      if s1.callers[c] == Returned(true) {
        assert Legal(s1, []) && Run(s1, []) == s1;
        OneStepMore(s, step, []);
        steps := [step] + [];
      } else {
        steps := SucceedsAlone(s1, c);
        OneStepMore(s, step, steps);
        steps := [step] + steps;
      }
    } else {
      steps := SucceedsAlone(s, c);
    }
  }

  lemma NoProberAfter(s: State, d: nat)
    requires Inv(s) && IsProber(s, d)
    ensures forall e :: !IsProber(Next(s, DoFinish(d, true)), e)
    ensures forall c :: c in s.callers && !s.callers[c].Returned? ==>
              c in Next(s, DoFinish(d, true)).callers && Next(s, DoFinish(d, true)).callers[c] != Returned(false)
  {
    var s1 := Next(s, DoFinish(d, true));
    forall e ensures !IsProber(s1, e) { assert IsProber(s1, e) ==> IsProber(s, e); }
  }

  lemma SucceedsAlone(s: State, c: nat) returns (steps: seq<Step>)
    requires Inv(s) && c in s.callers && !s.callers[c].Returned? && (forall d :: !IsProber(s, d))
    ensures Legal(s, steps) && c in Run(s, steps).callers && Run(s, steps).callers[c] == Returned(true)
    ensures forall step :: step in steps ==>
              step == DoWake(c) || step == DoEnter(c) || (step.DoFinish? && step.ok)
  {
    assert !IsProber(s, c);
    if s.callers[c].Waiting? {
      var s1 := Next(s, DoWake(c));
      NextKeeps(s, DoWake(c));
      forall d ensures !IsProber(s1, d) { assert IsProber(s1, d) ==> IsProber(s, d); }
      var rest := ProbeSucceeds(s1, c);
      OneStepMore(s, DoWake(c), rest);
      steps := [DoWake(c)] + rest;
    } else {
      steps := ProbeSucceeds(s, c);
    }
  }

  // ---------- the gate as the program keeps it ----------

  class Gate {
    var generation: nat
    var ready: bool
    var probing: bool
    var waitC: Option<nat>
    var nextChan: nat
    ghost var callers: map<nat, Caller>
    ghost var log: seq<Event>

    ghost function Abs(): State
      reads this
    {
      State(generation, ready, probing, waitC, nextChan, callers, log)
    }

    constructor ()
      ensures Abs() == Init() && Inv(Abs())
    {
      generation, ready, probing, waitC, nextChan := 0, false, false, None, 0;
      callers, log := map[], [];
    }

    method InvalidateSIMAuthReady()
      requires Inv(Abs())
      modifies this
      ensures Inv(Abs()) && Abs() == Next(old(Abs()), DoInvalidate)
      ensures !ready && generation != old(generation) && log == old(log) + [Invalidated]
    {
      NextKeeps(Abs(), DoInvalidate);
      generation := generation + 1;
      ready := false;
      log := log + [Invalidated];
    }

    /** What the caller does next: return nil, wait on a channel, or run the probe. */
    method EnterTurn(ghost c: nat) returns (turn: Caller)
      requires Inv(Abs()) && Enabled(Abs(), DoEnter(c))
      modifies this
      ensures Inv(Abs()) && Abs() == Next(old(Abs()), DoEnter(c)) && turn == callers[c]
    {
      NextKeeps(Abs(), DoEnter(c));
      if ready {
        turn := Returned(true);
      } else if probing {
        // the program would make a channel here if there were none; the invariant says there is one
        turn := Waiting(waitC.value);
      } else {
        turn := Probing(generation, nextChan);
        probing, waitC, nextChan := true, Some(nextChan), nextChan + 1;
        log := log + [Began(turn.chan)];
      }
      callers := callers[c := turn];
    }

    /** The probe of `c`, begun at `began` with channel `ch`, has answered. */
    method FinishProbe(ghost c: nat, began: nat, ch: nat, ok: bool) returns (turn: Caller)
      requires Inv(Abs()) && Enabled(Abs(), DoFinish(c, ok)) && callers[c] == Probing(began, ch)
      modifies this
      ensures Inv(Abs()) && Abs() == Next(old(Abs()), DoFinish(c, ok)) && turn == callers[c]
    {
      NextKeeps(Abs(), DoFinish(c, ok));
      if ok { log := log + [Succeeded(ch)]; }
      var stale := generation != began;
      if !stale { ready := ok; }
      if waitC == Some(ch) {
        log := log + [Closed(ch)];
        waitC := None;
      }
      probing := false;
      turn := if !ok then Returned(false) else if stale then Looping else Returned(true);
      callers := callers[c := turn];
    }
  }
}
