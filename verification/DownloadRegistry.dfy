/** Which download tasks exist, and the one task a device may have running. Times are nanoseconds. */
module DownloadRegistry {
  import opened Common

  const TTL := 600_000_000_000

  type DeviceId = string
  type TaskId = string

  datatype Task = Task(device: DeviceId, done: bool, finishedAt: int)

  datatype State = State(tasks: map<TaskId, Task>, active: map<DeviceId, TaskId>)

  predicate Expired(t: Task, now: int) {
    t.done && now - t.finishedAt > TTL
  }

  /** What is left of the tasks, and of the devices' claims, after a clean-up at `now`. */
  function Swept(s: State, now: int): State {
    State(map id | id in s.tasks && !Expired(s.tasks[id], now) :: s.tasks[id],
          map d | d in s.active && !(s.active[d] in s.tasks && s.tasks[s.active[d]].device == d
                                     && Expired(s.tasks[s.active[d]], now)) :: s.active[d])
  }

  /** The running task that stands in the way of another download for `device`. */
  predicate Running(s: State, device: DeviceId, now: int) {
    device in s.active && s.active[device] in s.tasks
    && !Expired(s.tasks[s.active[device]], now) && !s.tasks[s.active[device]].done
  }

  /** `now` is the clock of the clean-up, `later` that of the second look; `newId` is the random id, if there is one. */
  function Begin(s: State, device: DeviceId, now: int, later: int, newId: Option<TaskId>): State {
    var swept := Swept(s, now);
    if Running(swept, device, later) || newId.None? then swept
    else State(swept.tasks[newId.value := Task(device, false, 0)], swept.active[device := newId.value])
  }

  /** The download's own thread publishes its last event. */
  function Finish(s: State, id: TaskId, now: int): State {
    if id !in s.tasks then s
    else s.(tasks := s.tasks[id := s.tasks[id].(done := true, finishedAt := now)])
  }

  datatype Step =
    | DoBegin(device: DeviceId, now: int, later: int, newId: Option<TaskId>)
    | DoFinish(id: TaskId, at: int)

  /** Random ids do not repeat. */
  ghost predicate Enabled(s: State, step: Step) {
    step.DoBegin? && step.newId.Some? ==> step.newId.value !in s.tasks
  }

  function Next(s: State, step: Step): State {
    match step
    case DoBegin(device, now, later, newId) => Begin(s, device, now, later, newId)
    case DoFinish(id, at) => Finish(s, id, at)
  }

  ghost predicate Legal(s: State, steps: seq<Step>)
    decreases |steps|
  {
    steps == [] || (Enabled(s, steps[0]) && Legal(Next(s, steps[0]), steps[1..]))
  }

  function Run(s: State, steps: seq<Step>): State
    decreases |steps|
  {
    if steps == [] then s else Run(Next(s, steps[0]), steps[1..])
  }

  // ---------- what every run keeps ----------

  /** A claim names a task of its device, and a task still running is the one its device claims. */
  ghost predicate Inv(s: State) {
    && (forall d :: d in s.active ==> s.active[d] in s.tasks && s.tasks[s.active[d]].device == d)
    && (forall id :: id in s.tasks && !s.tasks[id].done ==>
          s.tasks[id].device in s.active && s.active[s.tasks[id].device] == id)
  }

  lemma SweptKeeps(s: State, now: int)
    requires Inv(s)
    ensures Inv(Swept(s, now))
    ensures forall id :: id in s.tasks && !s.tasks[id].done ==> id in Swept(s, now).tasks
  {
    var t := Swept(s, now);
    forall id | id in t.tasks && !t.tasks[id].done
      ensures t.tasks[id].device in t.active && t.active[t.tasks[id].device] == id
    {
      assert s.tasks[id].device in s.active && s.active[s.tasks[id].device] == id;
    }
  }

  lemma NextKeeps(s: State, step: Step)
    requires Inv(s) && Enabled(s, step)
    ensures Inv(Next(s, step))
  {
    match step
    case DoFinish(id, at) =>
    case DoBegin(device, now, later, newId) =>
      SweptKeeps(s, now);
      var t := Swept(s, now);
      assert newId.Some? ==> newId.value !in t.tasks;
      hide Swept;
      if !Running(t, device, later) && newId.Some? {
        forall id | id in t.tasks && !t.tasks[id].done ensures t.tasks[id].device != device {
          assert t.tasks[id].device in t.active;
        }
      }
  }

  lemma {:induction false} RunKeeps(s: State, steps: seq<Step>)
    requires Inv(s) && Legal(s, steps)
    ensures Inv(Run(s, steps))
    decreases |steps|
  {
    hide Inv, Next, Enabled;
    if steps != [] {
      NextKeeps(s, steps[0]);
      RunKeeps(Next(s, steps[0]), steps[1..]);
    }
  }

  /** In every run a device has at most one unfinished task. */
  lemma OneDownloadPerDevice(steps: seq<Step>, a: TaskId, b: TaskId)
    requires Legal(State(map[], map[]), steps)
    ensures var s := Run(State(map[], map[]), steps);
            (a in s.tasks && b in s.tasks && !s.tasks[a].done && !s.tasks[b].done
             && s.tasks[a].device == s.tasks[b].device) ==> a == b
  {
    hide Legal, Run;
    RunKeeps(State(map[], map[]), steps);
  }

  /** Every step leaves unfinished tasks alone unless it finishes them, and a finished one stays to be fetched until it
      has been finished for longer than the time to live. */
  lemma TasksOutliveSteps(s: State, step: Step, id: TaskId)
    requires Inv(s) && Enabled(s, step) && id in s.tasks
    requires step.DoBegin? && s.tasks[id].done ==> step.now <= s.tasks[id].finishedAt + TTL
    ensures id in Next(s, step).tasks
    ensures (step.DoFinish? && step.id == id) || Next(s, step).tasks[id] == s.tasks[id]
  {
  }

  /** A second request is turned away exactly when the device has an unfinished task, whatever the two clocks say; it
      is then given that task, and otherwise a new one of its own. */
  lemma BeginIsExclusive(s: State, device: DeviceId, now: int, later: int, newId: TaskId)
    requires Inv(s) && newId !in s.tasks
    ensures Running(Swept(s, now), device, later) <==>
            (exists id :: id in s.tasks && s.tasks[id].device == device && !s.tasks[id].done)
    ensures var t := Begin(s, device, now, later, Some(newId));
            device in t.active && t.active[device] in t.tasks && !t.tasks[t.active[device]].done
            && (t.active[device] == newId <==> !Running(Swept(s, now), device, later))
  {
    SweptKeeps(s, now);
    var t := Swept(s, now);
    if Running(t, device, later) {
      assert t.active[device] in s.tasks && !s.tasks[t.active[device]].done;
    }
  }

  // ---------- the registry as the program keeps it ----------

  /** A task is collected once ten minutes have passed since it ended, and only then; until it has ended, never. */
  lemma CollectedExactly(s: State, now: int, id: TaskId)
    requires id in s.tasks
    ensures id !in Swept(s, now).tasks <==> s.tasks[id].done && now > s.tasks[id].finishedAt + 600_000_000_000
    ensures id in Swept(s, now).tasks ==> Swept(s, now).tasks[id] == s.tasks[id]
  {
  }

  /** A claim of a device goes with its task, and only so. */
  lemma ClaimGoesWithTask(s: State, now: int, d: DeviceId)
    requires Inv(s) && d in s.active
    ensures d in Swept(s, now).active <==> s.active[d] in Swept(s, now).tasks
    ensures d in Swept(s, now).active ==> Swept(s, now).active[d] == s.active[d]
  {
  }

  /** Once a download has ended, its device can have another: the next request gets a new task, under its own number. */
  lemma EndFreesDevice(s: State, id: TaskId, at: int, now: int, later: int, newId: TaskId)
    requires Inv(s) && id in s.tasks && !s.tasks[id].done && newId !in s.tasks
    ensures var d := s.tasks[id].device;
            var ended := Next(s, DoFinish(id, at));
            var t := Next(ended, DoBegin(d, now, later, Some(newId)));
            && ended.tasks == s.tasks[id := Task(d, true, at)]
            && newId in t.tasks && t.tasks[newId].device == d && !t.tasks[newId].done
            && d in t.active && t.active[d] == newId
  {
    NextKeeps(s, DoFinish(id, at));
    BeginIsExclusive(Next(s, DoFinish(id, at)), s.tasks[id].device, now, later, newId);
  }

  /** While a download is under way a request changes nothing for its device. */
  lemma RequestIsTurnedAway(s: State, id: TaskId, now: int, later: int, newId: Option<TaskId>)
    requires Inv(s) && id in s.tasks && !s.tasks[id].done
    ensures var d := s.tasks[id].device;
            var t := Begin(s, d, now, later, newId);
            && d in t.active && t.active[d] == id && id in t.tasks && t.tasks[id] == s.tasks[id]
            && forall other :: other in t.tasks ==> other in s.tasks
  {
  }

  class Registry {
    var tasks: map<TaskId, Task>
    var active: map<DeviceId, TaskId>

    ghost function Abs(): State
      reads this
    {
      State(tasks, active)
    }

    constructor ()
      ensures Inv(Abs()) && Abs() == State(map[], map[])
    {
      tasks, active := map[], map[];
    }

    method Gc(now: int)
      requires Inv(Abs())
      modifies this
      ensures Inv(Abs()) && Abs() == Swept(old(Abs()), now)
    {
      SweptKeeps(Abs(), now);
      ghost var was := Abs();
      var todo := tasks.Keys;
      while todo != {}
        invariant todo <= tasks.Keys <= was.tasks.Keys
        invariant forall id :: id in was.tasks ==>
                    (id in tasks <==> id in todo || !Expired(was.tasks[id], now))
        invariant forall id :: id in tasks ==> tasks[id] == was.tasks[id]
        invariant active.Keys <= was.active.Keys && forall d :: d in active ==> active[d] == was.active[d]
        invariant forall d :: d in was.active ==> (d in active <==> was.active[d] in tasks)
        decreases todo
      {
        var id :| id in todo;
        if Expired(tasks[id], now) {
          var device := tasks[id].device;
          tasks := tasks - {id};
          if device in active && active[device] == id { active := active - {device}; }
        }
        todo := todo - {id};
      }
      assert Abs().tasks == Swept(was, now).tasks;
      assert Abs().active == Swept(was, now).active;
    }

    /** The download to follow and whether it is new. */
    method BeginTask(device: DeviceId, now: int, later: int, newId: Option<TaskId>)
      returns (task: Option<TaskId>, created: bool)
      requires Inv(Abs()) && (newId.Some? ==> newId.value !in tasks)
      modifies this
      ensures Inv(Abs()) && Abs() == Begin(old(Abs()), device, now, later, newId)
      ensures created <==> newId.Some? && !Running(Swept(old(Abs()), now), device, later)
      ensures task.None? <==> newId.None? && !Running(Swept(old(Abs()), now), device, later)
      ensures task.Some? ==> device in active && task.value == active[device] && !tasks[task.value].done
    {
      NextKeeps(Abs(), DoBegin(device, now, later, newId));
      Gc(now);
      if device in active {
        var existing := active[device];
        if existing in tasks && !Expired(tasks[existing], later) {
          if !tasks[existing].done { return Some(existing), false; }
        }
      }
      if newId.None? { return None, false; }
      tasks := tasks[newId.value := Task(device, false, 0)];
      active := active[device := newId.value];
      return newId, true;
    }
  }
}
