/**
 Schedules in which adapter ids are not reused.

 `transition` itself accepts any edge.  When install requests use pairwise distinct ids and
 no removal looks an adapter up while it is being installed, the program counter of an
 install task determines the state of its adapter, whatever else is interleaved, and so
 every event follows the intended order of states.
 */
module FreshInstalls {
  import opened Wrappers
  import opened AdapterId
  import opened StateManager
  import opened AdapterTasks

  // The documented table of transitions.
  const VALID_TRANSITIONS := {
    (Unknown, Downloading),
    (Downloading, Installing),
    (Downloading, Error),
    (Installing, Running),
    (Installing, Error),
    (Running, Stopped),
    (Running, Error),
    (Stopped, Offloading),
    (Offloading, Error)
  }

  predicate BeforeEntry(pc: InstallPc) {
    pc.ChooseVictim? || pc.StopVictim? || pc.MarkStopped? || pc.MarkFailed? || pc.CreateEntry?
  }

  // From the creation of the entry until the task returns.
  predicate InFlight(pc: InstallPc) {
    !BeforeEntry(pc) && pc != Returned
  }

  // The state in which the adapter is while its install task is at this point.
  function Expected(pc: InstallPc): AdapterState
    requires InFlight(pc)
  {
    match pc
    case ToDownloading => Unknown
    case PullImage => Downloading
    case DownloadFailed(_) => Downloading
    case InspectDigest => Downloading
    case Mismatch => Downloading
    case ToInstalling => Downloading
    case DropImage => Error
    case LaunchContainer => Installing
    case LaunchFailed(_) => Installing
    case ToRunning => Installing
  }

  // -------- the discipline --------

  ghost predicate Polite(s: State, a: Action) {
    match a
    case SubmitInstall(image, checksum, _) =>
      image != "" && checksum != "" ==>
        forall u :: 0 <= u < |s.tasks| && s.tasks[u].Install? ==> InstallId(s.tasks[u]) != DeriveAdapterId(image)
    case Step(t, _) =>
      t < |s.tasks| && s.tasks[t].Remove? && s.tasks[t].rpc.Lookup? ==>
        forall u :: 0 <= u < |s.tasks| && s.tasks[u].Install? && InstallId(s.tasks[u]) == s.tasks[t].id ==>
          !InFlight(s.tasks[u].ipc)
    case _ => true
  }

  ghost predicate IsPoliteRun(s: State, actions: seq<Action>)
    decreases |actions|
  {
    actions == []
      || (Enabled(s, actions[0]) && Polite(s, actions[0]) && IsPoliteRun(Apply(s, actions[0]), actions[1..]))
  }

  // -------- the invariant --------

  predicate IsSettledState(state: AdapterState) {
    state in {Running, Stopped, Error, Offloading}
  }

  predicate IsRetiredState(state: AdapterState) {
    state in {Stopped, Error, Offloading}
  }

  // The install task of this id has returned.
  ghost predicate Settled(tasks: seq<Task>, id: string) {
    exists u :: 0 <= u < |tasks| && tasks[u].Install? && InstallId(tasks[u]) == id && tasks[u].ipc == Returned
  }

  ghost predicate Retired(tasks: seq<Task>, adapters: Adapters, id: string) {
    Settled(tasks, id) && (id in adapters ==> IsRetiredState(adapters[id].state))
  }

  function QueueOf(pc: OffloadPc): seq<AdapterEntry> {
    if pc.Snapshot? then [] else pc.queue
  }

  ghost predicate TaskOwns(task: Task, tasks: seq<Task>, adapters: Adapters) {
    match task
    case Install(_, _, _, pc) =>
      var id := InstallId(task);
      && (BeforeEntry(pc) ==> id !in adapters)
      && (InFlight(pc) ==> id in adapters && adapters[id].state == Expected(pc))
      && (pc == Returned && id in adapters ==> IsSettledState(adapters[id].state))
      && (pc.StopVictim? || pc.MarkStopped? || pc.MarkFailed? ==> Settled(tasks, pc.victim))
    case Monitor(id, _) => Settled(tasks, id)
    case Remove(id, pc) => pc.Lookup? || pc.Removed? || Settled(tasks, id)
    case Offload(_, pc) => forall e :: e in QueueOf(pc) ==> Retired(tasks, adapters, e.adapterId)
  }

  ghost predicate DistinctInstalls(tasks: seq<Task>) {
    forall u, v :: 0 <= u < v < |tasks| && tasks[u].Install? && tasks[v].Install? ==>
      InstallId(tasks[u]) != InstallId(tasks[v])
  }

  ghost predicate HasInstall(tasks: seq<Task>, id: string) {
    exists u :: 0 <= u < |tasks| && tasks[u].Install? && InstallId(tasks[u]) == id
  }

  ghost predicate Owned(s: State) {
    && WellKeyed(s.adapters)
    && DistinctInstalls(s.tasks)
    && (forall id :: id in s.adapters ==> HasInstall(s.tasks, id))
    && (forall u :: 0 <= u < |s.tasks| ==> TaskOwns(s.tasks[u], s.tasks, s.adapters))
  }

  // -------- every step keeps it --------

  // A step touches only the adapter being installed by the task itself, or a settled one,
  // which it can only retire or delete.
  ghost predicate Touches(s: State, t: nat, effect: Effect)
    requires t < |s.tasks|
  {
    match effect
    case Put(e) => s.tasks[t].Install? && e.adapterId == InstallId(s.tasks[t]) && s.tasks[t].ipc == CreateEntry
      && e.state == Unknown
    case Move(id, newState, _) =>
      || (s.tasks[t].Install? && id == InstallId(s.tasks[t]) && InFlight(s.tasks[t].ipc))
      || (Settled(s.tasks, id) && IsRetiredState(newState))
    case Delete(id) => Settled(s.tasks, id)
    case _ => true
  }

  lemma StepTouches(s: State, t: nat, o: Outcome)
    requires Owned(s) && t < |s.tasks| && CanStep(s.tasks[t], s.adapters, o, s.clock)
    ensures Touches(s, t, StepTask(s.tasks[t], s.adapters, o, s.clock).effect)
  {
    assert TaskOwns(s.tasks[t], s.tasks, s.adapters);
    if s.tasks[t].Offload? && QueueOf(s.tasks[t].opc) != [] {
      assert QueueOf(s.tasks[t].opc)[0] in QueueOf(s.tasks[t].opc);
    }
  }

  lemma SettledKept(s: State, t: nat, o: Outcome, id: string)
    requires t < |s.tasks| && CanStep(s.tasks[t], s.adapters, o, s.clock) && Settled(s.tasks, id)
    ensures Settled(Apply(s, Step(t, o)).tasks, id)
  {
    var u :| 0 <= u < |s.tasks| && s.tasks[u].Install? && InstallId(s.tasks[u]) == id && s.tasks[u].ipc == Returned;
    assert Apply(s, Step(t, o)).tasks[u] == s.tasks[u];
  }

  lemma RetiredKept(s: State, t: nat, o: Outcome, id: string)
    requires Owned(s) && t < |s.tasks| && CanStep(s.tasks[t], s.adapters, o, s.clock)
             && Retired(s.tasks, s.adapters, id)
    ensures var s' := Apply(s, Step(t, o)); Retired(s'.tasks, s'.adapters, id)
  {
    hide StepTask;
    SettledKept(s, t, o, id);
    StepTouches(s, t, o);
    var u :| 0 <= u < |s.tasks| && s.tasks[u].Install? && InstallId(s.tasks[u]) == id && s.tasks[u].ipc == Returned;
    assert s.tasks[t].Install? && InstallId(s.tasks[t]) == id ==> t == u;
  }

  lemma RetiringEffect(adapters: Adapters, effect: Effect, now: nat, id: string)
    requires effect.Put? ==> effect.entry.adapterId != id
    requires effect.Move? && effect.id == id ==> IsRetiredState(effect.newState)
    ensures var adapters' := AdaptersAfter(adapters, effect, now);
            id in adapters' ==>
              id in adapters && (adapters'[id].state == adapters[id].state || IsRetiredState(adapters'[id].state))
  {
  }

  lemma UntouchedBy(adapters: Adapters, effect: Effect, now: nat, id: string)
    ensures var adapters' := AdaptersAfter(adapters, effect, now);
            !((effect.Put? && effect.entry.adapterId == id)
              || ((effect.Move? || effect.Delete?) && effect.id == id)) ==>
              (id in adapters' <==> id in adapters) && (id in adapters ==> adapters'[id] == adapters[id])
  {
  }

  // A step of another task leaves the adapter of an install task as that task expects it.
  lemma InstallKept(s: State, t: nat, o: Outcome, u: nat)
    requires Owned(s) && t < |s.tasks| && CanStep(s.tasks[t], s.adapters, o, s.clock) && u < |s.tasks| && u != t
    requires s.tasks[u].Install?
    ensures var s', id, pc := Apply(s, Step(t, o)), InstallId(s.tasks[u]), s.tasks[u].ipc;
            && (BeforeEntry(pc) ==> id !in s'.adapters)
            && (InFlight(pc) ==> id in s'.adapters && s'.adapters[id].state == Expected(pc))
            && (pc == Returned && id in s'.adapters ==> IsSettledState(s'.adapters[id].state))
  {
    hide StepTask, AdaptersAfter;
    StepTouches(s, t, o);
    assert TaskOwns(s.tasks[u], s.tasks, s.adapters);
    var id, effect := InstallId(s.tasks[u]), StepTask(s.tasks[t], s.adapters, o, s.clock).effect;
    assert s.tasks[t].Install? ==> InstallId(s.tasks[t]) != id;
    if Settled(s.tasks, id) {
      var v :| 0 <= v < |s.tasks| && s.tasks[v].Install? && InstallId(s.tasks[v]) == id && s.tasks[v].ipc == Returned;
      assert v == u;
      RetiringEffect(s.adapters, effect, s.clock, id);
    } else {
      UntouchedBy(s.adapters, effect, s.clock, id);
    }
  }

  lemma OtherKept(s: State, t: nat, o: Outcome, u: nat)
    requires Owned(s) && t < |s.tasks| && CanStep(s.tasks[t], s.adapters, o, s.clock) && u < |s.tasks| && u != t
    ensures var s' := Apply(s, Step(t, o)); TaskOwns(s'.tasks[u], s'.tasks, s'.adapters)
  {
    StepTouches(s, t, o);
    var task, s' := s.tasks[u], Apply(s, Step(t, o));
    assert TaskOwns(task, s.tasks, s.adapters);
    match task
    case Install(_, _, _, pc) =>
      if pc.StopVictim? || pc.MarkStopped? || pc.MarkFailed? {
        SettledKept(s, t, o, pc.victim);
      }
      InstallKept(s, t, o, u);
    case Monitor(id, _) => SettledKept(s, t, o, id);
    case Remove(id, pc) =>
      if !pc.Lookup? && !pc.Removed? {
        SettledKept(s, t, o, id);
      }
    case Offload(_, pc) =>
      forall e | e in QueueOf(pc) ensures Retired(s'.tasks, s'.adapters, e.adapterId) {
        RetiredKept(s, t, o, e.adapterId);
      }
  }

  lemma FlightStep(task: Task, adapters: Adapters, o: Outcome, now: nat)
    requires task.Install? && CanStep(task, adapters, o, now)
    requires task.ipc.CreateEntry?
             || (InFlight(task.ipc) && InstallId(task) in adapters
             && adapters[InstallId(task)].state == Expected(task.ipc))
    ensures var step, id := StepTask(task, adapters, o, now), InstallId(task);
            var adapters' := AdaptersAfter(adapters, step.effect, now);
            && step.next.Install? && InstallId(step.next) == id && !BeforeEntry(step.next.ipc) && id in adapters'
            && (if step.next.ipc == Returned then IsSettledState(adapters'[id].state)
              else adapters'[id].state == Expected(step.next.ipc))
  {
  }

  lemma OwnFlightKept(s: State, t: nat, o: Outcome)
    requires Owned(s) && t < |s.tasks| && s.tasks[t].Install? && CanStep(s.tasks[t], s.adapters, o, s.clock)
    requires InFlight(s.tasks[t].ipc) || s.tasks[t].ipc.CreateEntry?
    ensures var s' := Apply(s, Step(t, o)); TaskOwns(s'.tasks[t], s'.tasks, s'.adapters)
  {
    hide StepTask, AdaptersAfter;
    assert TaskOwns(s.tasks[t], s.tasks, s.adapters);
    FlightStep(s.tasks[t], s.adapters, o, s.clock);
  }

  // An adapter in a running or retired state is not being installed.
  lemma PresentIsSettled(s: State, id: string)
    requires Owned(s) && id in s.adapters && s.adapters[id].state in {Running, Stopped}
    ensures Settled(s.tasks, id)
  {
    var u :| 0 <= u < |s.tasks| && s.tasks[u].Install? && InstallId(s.tasks[u]) == id;
    assert TaskOwns(s.tasks[u], s.tasks, s.adapters);
  }

  lemma SettledElsewhere(s: State, t: nat, id: string)
    requires Owned(s) && t < |s.tasks| && s.tasks[t].Install? && s.tasks[t].ipc != Returned && Settled(s.tasks, id)
    ensures InstallId(s.tasks[t]) != id
  {
    var u :| 0 <= u < |s.tasks| && s.tasks[u].Install? && InstallId(s.tasks[u]) == id && s.tasks[u].ipc == Returned;
    assert u != t;
  }

  lemma OwnVictimKept(s: State, t: nat, o: Outcome)
    requires Owned(s) && t < |s.tasks| && s.tasks[t].Install? && CanStep(s.tasks[t], s.adapters, o, s.clock)
    requires BeforeEntry(s.tasks[t].ipc) && !s.tasks[t].ipc.CreateEntry?
    ensures var s' := Apply(s, Step(t, o)); TaskOwns(s'.tasks[t], s'.tasks, s'.adapters)
  {
    var task, pc := s.tasks[t], s.tasks[t].ipc;
    assert TaskOwns(task, s.tasks, s.adapters);
    if pc.ChooseVictim? {
      if o.entry.Some? {
        PresentIsSettled(s, o.entry.value.adapterId);
        SettledKept(s, t, o, o.entry.value.adapterId);
      }
    } else if pc.StopVictim? {
      SettledKept(s, t, o, pc.victim);
    } else {
      SettledElsewhere(s, t, pc.victim);
    }
  }

  lemma OwnInstallKept(s: State, t: nat, o: Outcome)
    requires Owned(s) && t < |s.tasks| && s.tasks[t].Install? && CanStep(s.tasks[t], s.adapters, o, s.clock)
    ensures var s' := Apply(s, Step(t, o)); TaskOwns(s'.tasks[t], s'.tasks, s'.adapters)
  {
    if InFlight(s.tasks[t].ipc) || s.tasks[t].ipc.CreateEntry? {
      OwnFlightKept(s, t, o);
    } else {
      OwnVictimKept(s, t, o);
    }
  }

  lemma LookedUpIsSettled(s: State, id: string)
    requires Owned(s) && id in s.adapters
    requires forall u :: 0 <= u < |s.tasks| && s.tasks[u].Install? && InstallId(s.tasks[u]) == id ==>
             !InFlight(s.tasks[u].ipc)
    ensures Settled(s.tasks, id)
  {
    var u :| 0 <= u < |s.tasks| && s.tasks[u].Install? && InstallId(s.tasks[u]) == id;
    assert TaskOwns(s.tasks[u], s.tasks, s.adapters);
  }

  lemma OwnRemoveKept(s: State, t: nat, o: Outcome)
    requires Owned(s) && t < |s.tasks| && s.tasks[t].Remove? && CanStep(s.tasks[t], s.adapters, o, s.clock)
             && Polite(s, Step(t, o))
    ensures var s' := Apply(s, Step(t, o)); TaskOwns(s'.tasks[t], s'.tasks, s'.adapters)
  {
    var id := s.tasks[t].id;
    assert TaskOwns(s.tasks[t], s.tasks, s.adapters);
    if s.tasks[t].rpc.Lookup? {
      if id in s.adapters {
        LookedUpIsSettled(s, id);
        SettledKept(s, t, o, id);
      }
    } else {
      SettledKept(s, t, o, id);
    }
  }

  lemma OwnOffloadKept(s: State, t: nat, o: Outcome)
    requires Owned(s) && t < |s.tasks| && s.tasks[t].Offload? && CanStep(s.tasks[t], s.adapters, o, s.clock)
    ensures var s' := Apply(s, Step(t, o)); TaskOwns(s'.tasks[t], s'.tasks, s'.adapters)
  {
    var pc, s' := s.tasks[t].opc, Apply(s, Step(t, o));
    assert TaskOwns(s.tasks[t], s.tasks, s.adapters);
    forall e | e in QueueOf(s'.tasks[t].opc) ensures Retired(s'.tasks, s'.adapters, e.adapterId) {
      if pc.Snapshot? {
        PresentIsSettled(s, e.adapterId);
      } else {
        assert e in QueueOf(pc);
      }
      RetiredKept(s, t, o, e.adapterId);
    }
  }

  lemma TasksOwn(s: State, t: nat, o: Outcome, u: nat)
    requires Owned(s) && t < |s.tasks| && CanStep(s.tasks[t], s.adapters, o, s.clock) && Polite(s, Step(t, o))
    requires u < |Apply(s, Step(t, o)).tasks|
    ensures var s' := Apply(s, Step(t, o)); TaskOwns(s'.tasks[u], s'.tasks, s'.adapters)
  {
    if u >= |s.tasks| {
      var s' := Apply(s, Step(t, o));
      assert s'.tasks[t].Install? && InstallId(s'.tasks[t]) == InstallId(s.tasks[t]) && s'.tasks[t].ipc == Returned;
    } else if u != t {
      OtherKept(s, t, o, u);
    } else {
      match s.tasks[t]
      case Install(_, _, _, _) => OwnInstallKept(s, t, o);
      case Monitor(id, _) => assert TaskOwns(s.tasks[t], s.tasks, s.adapters); SettledKept(s, t, o, id);
      case Remove(_, _) => OwnRemoveKept(s, t, o);
      case Offload(_, _) => OwnOffloadKept(s, t, o);
    }
  }

  lemma StepShape(task: Task, adapters: Adapters, o: Outcome, now: nat)
    requires CanStep(task, adapters, o, now)
    ensures var step := StepTask(task, adapters, o, now);
            && step.next.Install? == task.Install?
            && (task.Install? ==> InstallId(step.next) == InstallId(task))
            && forall u :: 0 <= u < |step.spawned| ==> step.spawned[u].Monitor?
  {
  }

  lemma InstallsKept(s: State, t: nat, o: Outcome)
    requires Owned(s) && t < |s.tasks| && CanStep(s.tasks[t], s.adapters, o, s.clock)
    ensures var s' := Apply(s, Step(t, o));
            WellKeyed(s'.adapters) && DistinctInstalls(s'.tasks) && forall id :: id in s'.adapters ==>
              HasInstall(s'.tasks, id)
  {
    hide StepTask;
    var step, s' := StepTask(s.tasks[t], s.adapters, o, s.clock), Apply(s, Step(t, o));
    StepTouches(s, t, o);
    StepShape(s.tasks[t], s.adapters, o, s.clock);
    assert s'.tasks == s.tasks[t := step.next] + step.spawned;
    forall id | id in s'.adapters ensures HasInstall(s'.tasks, id) {
      if id in s.adapters {
        var u :| 0 <= u < |s.tasks| && s.tasks[u].Install? && InstallId(s.tasks[u]) == id;
        assert s'.tasks[u].Install? && InstallId(s'.tasks[u]) == id;
      } else {
        assert s'.tasks[t].Install? && InstallId(s'.tasks[t]) == id;
      }
    }
  }

  lemma OwnedStep(s: State, t: nat, o: Outcome)
    requires Owned(s) && t < |s.tasks| && CanStep(s.tasks[t], s.adapters, o, s.clock) && Polite(s, Step(t, o))
    ensures Owned(Apply(s, Step(t, o)))
  {
    InstallsKept(s, t, o);
    forall u | 0 <= u < |Apply(s, Step(t, o)).tasks|
      ensures var s' := Apply(s, Step(t, o)); TaskOwns(s'.tasks[u], s'.tasks, s'.adapters)
    {
      TasksOwn(s, t, o, u);
    }
  }

  lemma OwnedSubmit(s: State, a: Action)
    requires Owned(s) && !a.Step? && Polite(s, a)
    ensures Owned(Apply(s, a))
  {
    var s' := Apply(s, a);
    forall id: string | Settled(s.tasks, id) ensures Settled(s'.tasks, id) {
      var u :| 0 <= u < |s.tasks| && s.tasks[u].Install? && InstallId(s.tasks[u]) == id && s.tasks[u].ipc == Returned;
      assert s'.tasks[u] == s.tasks[u];
    }
    forall id | id in s'.adapters ensures HasInstall(s'.tasks, id) {
      var u :| 0 <= u < |s.tasks| && s.tasks[u].Install? && InstallId(s.tasks[u]) == id;
      assert s'.tasks[u] == s.tasks[u];
    }
    forall u | 0 <= u < |s'.tasks| ensures TaskOwns(s'.tasks[u], s'.tasks, s'.adapters) {
      if u < |s.tasks| {
        assert TaskOwns(s.tasks[u], s.tasks, s.adapters);
      } else if s'.tasks[u].Install? {
        assert InstallId(s'.tasks[u]) in s.adapters ==> HasInstall(s.tasks, InstallId(s'.tasks[u]));
      }
    }
  }

  // -------- the order of events --------

  // No event leads back to an earlier stage of the life of an adapter.
  predicate Forward(oldState: AdapterState, newState: AdapterState) {
    match newState
    case Unknown => false
    case Downloading => oldState == Unknown
    case Installing => oldState == Downloading
    case Running => oldState == Installing
    case Stopped => IsSettledState(oldState)
    case Offloading => IsRetiredState(oldState)
    case Error => oldState != Unknown
  }

  predicate InTable(oldState: AdapterState, newState: AdapterState) {
    (oldState, newState) in VALID_TRANSITIONS
  }

  // The adapter is still in a state in which a task other than its install may move it:
  // running when it is stopped, stopped when it is offloaded, and running or being offloaded
  // when it fails.
  predicate OnTime(oldState: AdapterState, newState: AdapterState) {
    match newState
    case Stopped => oldState == Running
    case Offloading => oldState == Stopped
    case _ => oldState in {Running, Offloading}
  }

  predicate IsOwn(task: Task, id: string) {
    task.Install? && InstallId(task) == id
  }

  // All events go forward, and an event is an edge of the table exactly when it comes from
  // the adapter's own install or finds the adapter in time.
  ghost predicate EventInOrder(tasks: seq<Task>, item: Item) {
    item.fact.Moved? ==>
      && item.actor < |tasks|
      && Forward(item.fact.oldState, item.fact.newState)
      && (InTable(item.fact.oldState, item.fact.newState) <==>
            IsOwn(tasks[item.actor], item.fact.id) || OnTime(item.fact.oldState, item.fact.newState))
  }

  ghost predicate EventsInOrder(s: State) {
    forall k :: 0 <= k < |s.history| ==> EventInOrder(s.tasks, s.history[k])
  }

  // The state that a settled adapter leaves.
  lemma SettledState(s: State, id: string)
    requires Owned(s) && Settled(s.tasks, id) && id in s.adapters
    ensures IsSettledState(s.adapters[id].state)
  {
    var u :| 0 <= u < |s.tasks| && s.tasks[u].Install? && InstallId(s.tasks[u]) == id && s.tasks[u].ipc == Returned;
    assert TaskOwns(s.tasks[u], s.tasks, s.adapters);
  }

  lemma OwnMoveInTable(s: State, t: nat, o: Outcome)
    requires Owned(s) && t < |s.tasks| && s.tasks[t].Install? && InFlight(s.tasks[t].ipc)
             && CanStep(s.tasks[t], s.adapters, o, s.clock)
    ensures var effect := StepTask(s.tasks[t], s.adapters, o, s.clock).effect;
            effect.Move? ==>
              && effect.id == InstallId(s.tasks[t]) && effect.id in s.adapters
              && Forward(s.adapters[effect.id].state, effect.newState)
                && InTable(s.adapters[effect.id].state, effect.newState)
  {
    assert TaskOwns(s.tasks[t], s.tasks, s.adapters);
  }

  lemma OffloadingIsRetired(s: State, t: nat, o: Outcome)
    requires Owned(s) && t < |s.tasks| && CanStep(s.tasks[t], s.adapters, o, s.clock)
    ensures var effect := StepTask(s.tasks[t], s.adapters, o, s.clock).effect;
            effect.Move? && effect.newState == Offloading ==> Retired(s.tasks, s.adapters, effect.id)
  {
    hide Retired, Settled;
    assert TaskOwns(s.tasks[t], s.tasks, s.adapters);
    if s.tasks[t].Offload? && QueueOf(s.tasks[t].opc) != [] {
      assert QueueOf(s.tasks[t].opc)[0] in QueueOf(s.tasks[t].opc);
    }
  }

  lemma SettledMove(oldState: AdapterState, newState: AdapterState)
    requires IsSettledState(oldState) && IsRetiredState(newState)
             && (newState == Offloading ==> IsRetiredState(oldState))
    ensures Forward(oldState, newState) && (InTable(oldState, newState) <==> OnTime(oldState, newState))
  {
  }

  lemma NewEventInOrder(s: State, t: nat, o: Outcome)
    requires Owned(s) && t < |s.tasks| && CanStep(s.tasks[t], s.adapters, o, s.clock)
    ensures var effect := StepTask(s.tasks[t], s.adapters, o, s.clock).effect;
            effect.Move? && effect.id in s.adapters ==>
              && Forward(s.adapters[effect.id].state, effect.newState)
              && (InTable(s.adapters[effect.id].state, effect.newState) <==>
                    IsOwn(s.tasks[t], effect.id) || OnTime(s.adapters[effect.id].state, effect.newState))
  {
    StepTouches(s, t, o);
    OffloadingIsRetired(s, t, o);
    var effect := StepTask(s.tasks[t], s.adapters, o, s.clock).effect;
    if s.tasks[t].Install? && InFlight(s.tasks[t].ipc) {
      OwnMoveInTable(s, t, o);
    }
    hide StepTask, Owned, CanStep, InTable, OnTime, Forward, IsSettledState, IsRetiredState;
    if effect.Move? && effect.id in s.adapters && Settled(s.tasks, effect.id) {
      SettledState(s, effect.id);
      SettledMove(s.adapters[effect.id].state, effect.newState);
      if s.tasks[t].Install? && s.tasks[t].ipc != Returned {
        SettledElsewhere(s, t, effect.id);
      }
    }
  }

  lemma EventsStep(s: State, t: nat, o: Outcome)
    requires Owned(s) && EventsInOrder(s) && t < |s.tasks| && CanStep(s.tasks[t], s.adapters, o, s.clock)
    ensures EventsInOrder(Apply(s, Step(t, o)))
  {
    hide StepTask;
    NewEventInOrder(s, t, o);
    StepShape(s.tasks[t], s.adapters, o, s.clock);
    var s' := Apply(s, Step(t, o));
    forall k | 0 <= k < |s'.history| ensures EventInOrder(s'.tasks, s'.history[k]) {
      if k < |s.history| {
        assert EventInOrder(s.tasks, s.history[k]);
      }
    }
  }

  lemma {:induction false} OwnedAlways(s: State, actions: seq<Action>)
    requires Owned(s) && EventsInOrder(s) && IsRun(s, actions) && IsPoliteRun(s, actions)
    ensures Owned(After(s, actions)) && EventsInOrder(After(s, actions))
    decreases |actions|
  {
    if actions == [] {
    } else {
      var a := actions[0];
      if a.Step? {
        OwnedStep(s, a.task, a.outcome);
        EventsStep(s, a.task, a.outcome);
      } else {
        OwnedSubmit(s, a);
        assert forall k :: 0 <= k < |s.history| ==> EventInOrder(s.tasks, s.history[k]);
      }
      OwnedAlways(Apply(s, a), actions[1..]);
    }
  }

  // -------- main results, for every polite run from the initial state --------

  // The program counter of an install task determines the state of its adapter.
  lemma CounterDeterminesState(actions: seq<Action>, t: nat)
    requires IsRun(INITIAL, actions) && IsPoliteRun(INITIAL, actions)
    requires t < |After(INITIAL, actions).tasks| && After(INITIAL, actions).tasks[t].Install?
    ensures var s := After(INITIAL, actions); var task := s.tasks[t]; var id := InstallId(task);
            && (BeforeEntry(task.ipc) ==> id !in s.adapters)
            && (InFlight(task.ipc) ==> id in s.adapters && s.adapters[id].state == Expected(task.ipc))
            && (task.ipc == Returned && id in s.adapters ==> IsSettledState(s.adapters[id].state))
  {
    OwnedAlways(INITIAL, actions);
    var s := After(INITIAL, actions);
    assert TaskOwns(s.tasks[t], s.tasks, s.adapters);
  }

  // Every event goes forward, and it is an edge of the table exactly when it comes from the
  // adapter's own install or finds the adapter in time.
  lemma EventsFollowTable(actions: seq<Action>, k: nat)
    requires IsRun(INITIAL, actions) && IsPoliteRun(INITIAL, actions) && k < |After(INITIAL, actions).history|
    ensures EventInOrder(After(INITIAL, actions).tasks, After(INITIAL, actions).history[k])
  {
    OwnedAlways(INITIAL, actions);
  }

  ghost predicate AllInTable(history: seq<Item>) {
    forall k :: 0 <= k < |history| && history[k].fact.Moved? ==>
      InTable(history[k].fact.oldState, history[k].fact.newState)
  }

  // A task that moves the adapter of another task's install does so in time.
  ghost predicate Punctual(s: State, a: Action) {
    a.Step? && a.task < |s.tasks| && CanStep(s.tasks[a.task], s.adapters, a.outcome, s.clock) ==>
      var effect := StepTask(s.tasks[a.task], s.adapters, a.outcome, s.clock).effect;
      effect.Move? && effect.id in s.adapters ==>
        IsOwn(s.tasks[a.task], effect.id) || OnTime(s.adapters[effect.id].state, effect.newState)
  }

  ghost predicate IsPunctualRun(s: State, actions: seq<Action>)
    requires IsRun(s, actions)
    decreases |actions|
  {
    actions == [] || (Punctual(s, actions[0]) && IsPunctualRun(Apply(s, actions[0]), actions[1..]))
  }

  lemma AllInTableAppend(history: seq<Item>, item: Item)
    ensures AllInTable(history + [item]) <==>
            AllInTable(history) && (item.fact.Moved? ==> InTable(item.fact.oldState, item.fact.newState))
  {
    var longer := history + [item];
    assert longer[|history|] == item && forall k :: 0 <= k < |history| ==> longer[k] == history[k];
  }

  lemma TableStep(s: State, a: Action)
    requires Owned(s) && Enabled(s, a)
    ensures AllInTable(Apply(s, a).history) <==> AllInTable(s.history) && Punctual(s, a)
  {
    hide StepTask, InTable, OnTime, AllInTable;
    if a.Step? {
      NewEventInOrder(s, a.task, a.outcome);
      var effect := StepTask(s.tasks[a.task], s.adapters, a.outcome, s.clock).effect;
      AllInTableAppend(s.history, Item(a.task, s.clock, FactOf(s.adapters, effect)));
    }
  }

  lemma {:induction false} TableKept(s: State, actions: seq<Action>)
    requires Owned(s) && IsRun(s, actions) && IsPoliteRun(s, actions)
    ensures AllInTable(After(s, actions).history) <==> AllInTable(s.history) && IsPunctualRun(s, actions)
    decreases |actions|
  {
    if actions == [] {
    } else {
      var a := actions[0];
      TableStep(s, a);
      if a.Step? {
        OwnedStep(s, a.task, a.outcome);
      } else {
        OwnedSubmit(s, a);
      }
      hide Owned, AllInTable, Punctual, Polite;
      TableKept(Apply(s, a), actions[1..]);
    }
  }

  // With unshared ids and no removal during an install, all events of a run are edges of the
  // table exactly when every victim, monitor, removal and offload step of it is in time.
  lemma TableIff(actions: seq<Action>)
    requires IsRun(INITIAL, actions) && IsPoliteRun(INITIAL, actions)
    ensures AllInTable(After(INITIAL, actions).history) <==> IsPunctualRun(INITIAL, actions)
  {
    TableKept(INITIAL, actions);
  }

  // An adapter listed by an offload cycle never runs again, however long the cycle takes.
  lemma OffloadedStayRetired(actions: seq<Action>, t: nat, e: AdapterEntry)
    requires IsRun(INITIAL, actions) && IsPoliteRun(INITIAL, actions)
    requires var s := After(INITIAL, actions); t < |s.tasks| && s.tasks[t].Offload? && e in QueueOf(s.tasks[t].opc)
    ensures var s := After(INITIAL, actions); e.adapterId in s.adapters ==>
            IsRetiredState(s.adapters[e.adapterId].state)
  {
    OwnedAlways(INITIAL, actions);
    var s := After(INITIAL, actions);
    assert TaskOwns(s.tasks[t], s.tasks, s.adapters);
  }
}
