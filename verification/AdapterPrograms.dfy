/**
 The update service's operations as programs over the shared adapter map.

 A program proceeds one atomic step at a time.  After each of its steps the other tasks may
 take any number of theirs; a program relies on nothing they leave untouched but its own
 progress.  Each program is a task of the transition system: however it is interleaved, what
 happens is one of the system's runs.
 */
module AdapterPrograms {
  import opened Wrappers
  import opened AdapterId
  import opened StateManager
  import opened AdapterTasks
  import opened AdapterHistory
  import opened Transcripts
  import opened AdapterRecords

  // The broadcast events are the state changes of the history.
  function Broadcast(history: seq<Item>): seq<StateEvent> {
    if history == [] then []
    else
      var fact := history[|history| - 1].fact;
      Broadcast(history[..|history| - 1]) + if fact.Moved? then [StateEvent(fact.id, fact.oldState, fact.newState)]
        else []
  }

  lemma BroadcastAppend(history: seq<Item>, item: Item)
    ensures Broadcast(history + [item])
            == Broadcast(history) + if item.fact.Moved?
              then [StateEvent(item.fact.id, item.fact.oldState, item.fact.newState)] else []
  {
    assert (history + [item])[..|history|] == history;
  }

  function Announced(adapters: Adapters, effect: Effect): seq<StateEvent> {
    if effect.Move? && effect.id in adapters then [StateEvent(effect.id, adapters[effect.id].state, effect.newState)]
      else []
  }

  predicate StepsOf(t: nat, a: Action) {
    a.Step? && a.task == t
  }

  // What a program of task t guarantees: of the actions since `before`, those that were not
  // another's turn are steps of t, and the others are not.
  ghost predicate Proceeds(t: nat, before: seq<Action>, was: seq<bool>, actions: seq<Action>, othersTurn: seq<bool>) {
    && before <= actions && was <= othersTurn && |was| == |before| && |othersTurn| == |actions|
    && forall k :: |before| <= k < |actions| ==> (othersTurn[k] <==> !StepsOf(t, actions[k]))
  }

  // Steps of other tasks, new tasks and the passing of time leave a task as it is.  So the
  // guarantee of each program is what the programs of all other tasks rely on.
  lemma {:induction false} OthersLeaveTask(s: State, actions: seq<Action>, u: nat)
    requires IsRun(s, actions) && u < |s.tasks| && forall k :: 0 <= k < |actions| ==> !StepsOf(u, actions[k])
    ensures u < |After(s, actions).tasks| && After(s, actions).tasks[u] == s.tasks[u]
    decreases |actions|
  {
    if actions == [] {
    } else {
      assert !StepsOf(u, actions[0]);
      assert forall k :: 0 <= k < |actions[1..]| ==> actions[1..][k] == actions[k + 1];
      hide StepTask;
      OthersLeaveTask(Apply(s, actions[0]), actions[1..], u);
    }
  }

  datatype InstallError = InvalidArgument(message: string)

  class UpdateService {
    const manager: StateManager
    var clock: nat
    ghost var actions: seq<Action>
    // Which of the actions were taken while the running program waited.
    ghost var othersTurn: seq<bool>
    ghost var state: State

    ghost predicate Valid()
      reads this, manager
    {
      && manager.Valid()
      && IsRun(INITIAL, actions) && state == After(INITIAL, actions) && |othersTurn| == |actions|
      && manager.adapters == state.adapters && manager.events == Broadcast(state.history) && clock == state.clock
    }

    // Told the outcome, task t takes a step with this effect.
    ghost predicate Ready(t: nat, o: Outcome, effect: Effect)
      reads this
    {
      && t < |state.tasks|
      && CanStep(state.tasks[t], state.adapters, o, state.clock)
      && StepTask(state.tasks[t], state.adapters, o, state.clock).effect == effect
    }

    ghost function Next(t: nat, o: Outcome): Task
      reads this
      requires t < |state.tasks| && CanStep(state.tasks[t], state.adapters, o, state.clock)
    {
      StepTask(state.tasks[t], state.adapters, o, state.clock).next
    }

    constructor ()
      ensures Valid() && fresh(manager) && state == INITIAL
    {
      manager := new StateManager();
      clock, actions, othersTurn, state := 0, [], [], INITIAL;
    }

    ghost method Record(a: Action, others: bool)
      requires IsRun(INITIAL, actions) && state == After(INITIAL, actions) && Enabled(state, a)
      modifies this`actions, this`othersTurn, this`state
      ensures actions == old(actions) + [a] && othersTurn == old(othersTurn) + [others] && state == Apply(old(state), a)
      ensures IsRun(INITIAL, actions) && state == After(INITIAL, actions)
    {
      RunOne(state, a, []);
      RunConcat(INITIAL, actions, [a]);
      actions, othersTurn, state := actions + [a], othersTurn + [others], Apply(state, a);
    }

    // The running program of task t has kept its guarantee since then.
    ghost predicate Serves(t: nat, before: seq<Action>, was: seq<bool>)
      reads this
    {
      Proceeds(t, before, was, actions, othersTurn)
    }

    lemma ServesSoFar(t: nat)
      requires Valid()
      ensures Serves(t, actions, othersTurn)
    {
    }

    // Task t's step, as far as the transition system is concerned.
    ghost method Took(t: nat, o: Outcome, effect: Effect)
      requires IsRun(INITIAL, actions) && state == After(INITIAL, actions) && |othersTurn| == |actions|
               && Ready(t, o, effect)
      modifies this`actions, this`othersTurn, this`state
      ensures IsRun(INITIAL, actions) && state == After(INITIAL, actions)
      ensures Proceeds(t, old(actions), old(othersTurn), actions, othersTurn)
      ensures t < |state.tasks| && state.tasks[t] == old(Next(t, o)) && state.clock == old(state.clock)
      ensures state.adapters == AdaptersAfter(old(state.adapters), effect, old(state.clock))
      ensures Broadcast(state.history) == Broadcast(old(state.history)) + Announced(old(state.adapters), effect)
    {
      hide StepTask, CanStep;
      BroadcastAppend(state.history, Item(t, state.clock, FactOf(state.adapters, effect)));
      Record(Step(t, o), false);
    }

    // The other tasks have their turn.  All that is known about it is this contract, which
    // any steps of tasks other than t, any new tasks and any passing of time meet.
    method Yield(ghost t: nat)
      requires Valid() && t < |state.tasks|
      modifies this, manager
      ensures Valid() && t < |state.tasks| && state.tasks[t] == old(state.tasks[t])
      ensures Proceeds(t, old(actions), old(othersTurn), actions, othersTurn)
      ensures forall k :: |old(actions)| <= k < |actions| ==> othersTurn[k]
    {
      var elapsed: nat :| elapsed >= 0;
      clock := clock + elapsed;
      Record(Advance(elapsed), true);
    }

    // -------- atomic steps --------

    method Transition(ghost t: nat, id: string, newState: AdapterState, errorMsg: Option<string>)
      requires Valid() && Ready(t, Success, Move(id, newState, errorMsg))
      modifies this, manager
      ensures Valid() && t < |state.tasks| && state.tasks[t] == old(Next(t, Success))
      ensures forall before, was :: old(Serves(t, before, was)) ==> Serves(t, before, was)
    {
      var _ := manager.Transition(id, newState, errorMsg, clock);
      Took(t, Success, Move(id, newState, errorMsg));
      Yield(t);
    }

    method CreateAdapter(ghost t: nat, entry: AdapterEntry)
      requires Valid() && Ready(t, Success, Put(entry))
      modifies this, manager
      ensures Valid() && t < |state.tasks| && state.tasks[t] == old(Next(t, Success))
      ensures forall before, was :: old(Serves(t, before, was)) ==> Serves(t, before, was)
    {
      manager.CreateAdapter(entry);
      Took(t, Success, Put(entry));
      Yield(t);
    }

    method DropAdapter(ghost t: nat, id: string)
      requires Valid() && Ready(t, Success, Delete(id))
      modifies this, manager
      ensures Valid() && t < |state.tasks| && state.tasks[t] == old(Next(t, Success))
      ensures forall before, was :: old(Serves(t, before, was)) ==> Serves(t, before, was)
    {
      var _ := manager.RemoveAdapter(id);
      Took(t, Success, Delete(id));
      Yield(t);
    }

    method FindRunning(ghost t: nat) returns (running: Option<AdapterEntry>)
      requires Valid() && t < |state.tasks| && state.tasks[t].Install? && state.tasks[t].ipc == ChooseVictim
      modifies this, manager
      ensures Valid() && t < |state.tasks|
      ensures forall before, was :: old(Serves(t, before, was)) ==> Serves(t, before, was)
      ensures state.tasks[t] == old(state.tasks[t]).(ipc := if running.Some? then StopVictim(running.value.adapterId)
              else CreateEntry)
    {
      running := manager.GetRunningAdapter();
      Took(t, Found(running), Read(if running.Some? then [running.value] else []));
      Yield(t);
    }

    method FindAdapter(ghost t: nat, id: string) returns (found: Option<AdapterEntry>)
      requires Valid() && t < |state.tasks| && state.tasks[t] == Remove(id, Lookup)
      modifies this, manager
      ensures Valid() && t < |state.tasks|
      ensures forall before, was :: old(Serves(t, before, was)) ==> Serves(t, before, was)
      ensures state.tasks[t] == Remove(id, if found.None? then Removed(Err(NoSuchAdapter("adapter not found: " + id)))
                                           else if found.value.state == Running then StopContainer(found.value)
                                           else RemoveContainer(found.value))
    {
      found := manager.GetAdapter(id);
      Took(t, Success, Read(if found.Some? then [found.value] else []));
      Yield(t);
    }

    method ListCandidates(ghost t: nat, timeout: nat) returns (candidates: seq<AdapterEntry>)
      requires Valid() && t < |state.tasks| && state.tasks[t] == Offload(timeout, Snapshot)
      modifies this, manager
      ensures Valid() && t < |state.tasks|
      ensures forall before, was :: old(Serves(t, before, was)) ==> Serves(t, before, was)
      ensures state.tasks[t] == Offload(timeout, MarkOffloading(candidates))
    {
      candidates := manager.GetOffloadCandidates(timeout, clock);
      Took(t, Listed(candidates), Read(candidates));
      Yield(t);
    }

    // Podman gives some answer to a call; it is one of the outcomes of the task's step.
    method Podman(ghost t: nat, ghost call: Call, o: Outcome)
      requires Valid() && Ready(t, o, Ask(call, o))
      modifies this, manager
      ensures Valid() && t < |state.tasks| && state.tasks[t] == old(Next(t, o))
      ensures forall before, was :: old(Serves(t, before, was)) ==> Serves(t, before, was)
    {
      Took(t, o, Ask(call, o));
      Yield(t);
    }

    // -------- what finished programs have done --------

    lemma BegunTold(t: nat, r: Request)
      requires Valid() && t < |state.tasks| && state.tasks[t] == Install(r.image, r.checksum, r.jobId, PullImage)
      ensures IsBegunTranscript(r, OwnFacts(state.history, t))
    {
      BegunTranscript(actions, t);
    }

    lemma InstallTold(t: nat, r: Request)
      requires Valid() && t < |state.tasks| && state.tasks[t] == Install(r.image, r.checksum, r.jobId, Returned)
      ensures IsInstallTranscript(r, OwnFacts(state.history, t))
    {
      InstallTranscript(actions, t);
    }

    lemma MonitorTold(t: nat, id: string)
      requires Valid() && t < |state.tasks| && state.tasks[t] == Monitor(id, Reported)
      ensures IsMonitorTranscript(id, OwnFacts(state.history, t))
    {
      MonitorTranscript(actions, t);
    }

    // The removal has done what its answer says.
    ghost predicate HasRemoved(t: nat, id: string, answer: Result<(), RemoveError>)
      reads this
    {
      && IsRemovalTranscript(id, OwnFacts(state.history, t), answer)
      && (answer.Ok? ==> exists e: AdapterEntry :: e.adapterId == id && GoneAfterRemoval(state.history, t, e))
    }

    lemma RemovalTold(t: nat, id: string, answer: Result<(), RemoveError>)
      requires Valid() && t < |state.tasks| && state.tasks[t] == Remove(id, Removed(answer))
      ensures HasRemoved(t, id, answer)
    {
      RemovalTranscript(actions, t);
      if answer.Ok? {
        RemovedMeansGone(actions, t);
      }
    }

    // Every listed adapter is gone or one of the calls about it has failed.
    ghost predicate HasOffloaded(t: nat)
      reads this
    {
      var facts := OwnFacts(state.history, t);
      && IsCycleTranscript(facts)
      && forall i :: 0 <= i < |facts[0].entries| ==>
           var e := facts[0].entries[i];
           GoneAfterRemoval(state.history, t, e) || RemovalHasFailed(state.history, t, e)
    }

    lemma CycleTold(t: nat, timeout: nat)
      requires Valid() && t < |state.tasks| && state.tasks[t] == Offload(timeout, MarkOffloading([]))
      ensures HasOffloaded(t)
    {
      CycleTranscript(actions, t);
      var facts := OwnFacts(state.history, t);
      forall i | 0 <= i < |facts[0].entries|
        ensures var e := facts[0].entries[i];
                GoneAfterRemoval(state.history, t, e) || RemovalHasFailed(state.history, t, e)
      {
        CycleOutcome(actions, t, i);
      }
    }

    // -------- installing --------

    // Once the running adapter has been looked up, the program counter tells what an install
    // task does next.
    lemma InstallGoesOn(t: nat, task: Task, o: Outcome)
      requires t < |state.tasks| && state.tasks[t] == task
      requires task.Install? && task.ipc !in {ChooseVictim, Returned} && CanInstallStep(task.ipc, map[], o)
      ensures Ready(t, o, InstallStep(task, map[], o).effect) && Next(t, o) == InstallStep(task, map[], o).next
    {
    }

    // The synchronous part.  It leaves a task that is about to pull the image.
    method InstallAdapter(image: string, checksum: string, jobId: string, stopping: Outcome)
      returns (r: Result<(string, string, AdapterState), InstallError>, ghost t: nat)
      requires Valid() && Plain(stopping)
      modifies this, manager
      ensures Valid()
      ensures image == "" ==> r == Err(InvalidArgument("image_ref is required"))
      ensures image != "" && checksum == "" ==> r == Err(InvalidArgument("checksum_sha256 is required"))
      ensures r.Err? ==> actions == old(actions) && state == old(state) && manager.events == old(manager.events)
      ensures image != "" && checksum != "" ==>
                && r == Ok((jobId, DeriveAdapterId(image), Downloading))
                && Serves(t, old(actions) + [SubmitInstall(image, checksum, jobId)], old(othersTurn) + [false])
                && t == |old(state).tasks| < |state.tasks|
                  && state.tasks[t] == Install(image, checksum, jobId, PullImage)
                && IsBegunTranscript(Request(image, checksum, jobId), OwnFacts(state.history, t))
    {
      hide Valid, DeriveAdapterId, Ready, StepTask, Serves, Next, CanStep, IsBegunTranscript, OwnFacts;
      t := |state.tasks|;
      if image == "" {
        return Err(InvalidArgument("image_ref is required")), t;
      }
      if checksum == "" {
        return Err(InvalidArgument("checksum_sha256 is required")), t;
      }
      var id := DeriveAdapterId(image);
      Accept(image, checksum, jobId);
      ServesSoFar(t);
      var running := FindRunning(t);
      if running.Some? {
        InstallGoesOn(t, Install(image, checksum, jobId, StopVictim(running.value.adapterId)), stopping);
        Podman(t, Stop(running.value.adapterId), stopping);
        match stopping {
          case Success =>
            InstallGoesOn(t, Install(image, checksum, jobId, MarkStopped(running.value.adapterId)), Success);
            Transition(t, running.value.adapterId, Stopped, None);
          case Failed(why) =>
            InstallGoesOn(t, Install(image, checksum, jobId, MarkFailed(running.value.adapterId, why)), Success);
            Transition(t, running.value.adapterId, Error, Some(why));
        }
      }
      InstallGoesOn(t, Install(image, checksum, jobId, CreateEntry), Success);
      CreateAdapter(t, AdapterEntry(id, image, checksum, Unknown, jobId, None, None));
      InstallGoesOn(t, Install(image, checksum, jobId, ToDownloading), Success);
      Transition(t, id, Downloading, None);
      BegunTold(t, Request(image, checksum, jobId));
      return Ok((jobId, id, Downloading)), t;
    }

    ghost method Accept(image: string, checksum: string, jobId: string)
      requires Valid() && image != "" && checksum != ""
      modifies this`actions, this`othersTurn, this`state
      ensures Valid()
      ensures actions == old(actions) + [SubmitInstall(image, checksum, jobId)]
              && othersTurn == old(othersTurn) + [false]
      ensures |state.tasks| == |old(state.tasks)| + 1
      ensures state.tasks[|old(state.tasks)|] == Install(image, checksum, jobId, ChooseVictim)
    {
      Record(SubmitInstall(image, checksum, jobId), false);
    }

    // The background part, with podman's answers to its calls.
    method PullVerifyRun(ghost t: nat, image: string, checksum: string, ghost jobId: string,
                         pull: Outcome, digest: Outcome, rmi: Outcome, run: Outcome)
      requires Valid() && t < |state.tasks| && state.tasks[t] == Install(image, checksum, jobId, PullImage)
      requires Plain(pull) && (digest.Digest? || digest.Failed?) && Plain(rmi) && Plain(run)
      modifies this, manager
      ensures Valid() && Serves(t, old(actions), old(othersTurn))
      ensures t < |state.tasks| && state.tasks[t] == Install(image, checksum, jobId, Returned)
      ensures IsInstallTranscript(Request(image, checksum, jobId), OwnFacts(state.history, t))
    {
      hide Valid, DeriveAdapterId, Ready, StepTask, Serves, Next, CanStep, IsInstallTranscript, OwnFacts;
      ServesSoFar(t);
      var id := DeriveAdapterId(image);
      InstallGoesOn(t, Install(image, checksum, jobId, PullImage), pull);
      Podman(t, Pull(image), pull);
      if pull.Failed? {
        InstallGoesOn(t, Install(image, checksum, jobId, DownloadFailed(pull.message)), Success);
        Transition(t, id, Error, Some(pull.message));
        InstallTold(t, Request(image, checksum, jobId));
        return;
      }
      InstallGoesOn(t, Install(image, checksum, jobId, InspectDigest), digest);
      Podman(t, Inspect(image), digest);
      if digest.Failed? {
        InstallGoesOn(t, Install(image, checksum, jobId, DownloadFailed(digest.message)), Success);
        Transition(t, id, Error, Some(digest.message));
        InstallTold(t, Request(image, checksum, jobId));
        return;
      }
      if digest.digest != checksum {
        InstallGoesOn(t, Install(image, checksum, jobId, Mismatch), Success);
        Transition(t, id, Error, Some("checksum_mismatch"));
        InstallGoesOn(t, Install(image, checksum, jobId, DropImage), rmi);
        Podman(t, Rmi(image), rmi);
        InstallTold(t, Request(image, checksum, jobId));
        return;
      }
      InstallGoesOn(t, Install(image, checksum, jobId, ToInstalling), Success);
      Transition(t, id, Installing, None);
      InstallGoesOn(t, Install(image, checksum, jobId, LaunchContainer), run);
      Podman(t, Launch(id, image), run);
      if run.Failed? {
        InstallGoesOn(t, Install(image, checksum, jobId, LaunchFailed(run.message)), Success);
        Transition(t, id, Error, Some(run.message));
        InstallTold(t, Request(image, checksum, jobId));
        return;
      }
      InstallGoesOn(t, Install(image, checksum, jobId, ToRunning), Success);
      Transition(t, id, Running, None);
      InstallTold(t, Request(image, checksum, jobId));
    }

    // Watches a container until it exits.
    method MonitorContainer(ghost t: nat, id: string, exit: Outcome)
      requires Valid() && t < |state.tasks| && state.tasks[t] == Monitor(id, Waiting)
      requires exit.Exit? || exit.Failed?
      modifies this, manager
      ensures Valid() && Serves(t, old(actions), old(othersTurn))
      ensures t < |state.tasks| && state.tasks[t] == Monitor(id, Reported)
      ensures IsMonitorTranscript(id, OwnFacts(state.history, t))
    {
      hide Valid, DeriveAdapterId, Serves, IsMonitorTranscript, OwnFacts;
      ServesSoFar(t);
      Podman(t, Wait(id), exit);
      match exit {
        case Exit(code) =>
          if code == 0 {
            Transition(t, id, Stopped, None);
          } else {
            Transition(t, id, Error, Some(ExitMessage(code)));
          }
        case Failed(why) => Transition(t, id, Error, Some(why));
      }
      MonitorTold(t, id);
    }

    // -------- removing and offloading --------

    lemma RemoveGoesOn(t: nat, task: Task, o: Outcome)
      requires t < |state.tasks| && state.tasks[t] == task
      requires task.Remove? && task.rpc != Lookup && CanRemoveStep(task.rpc, o)
      ensures Ready(t, o, RemoveStep(task, map[], o).effect) && Next(t, o) == RemoveStep(task, map[], o).next
    {
    }

    // The answer is the one the task ends with.
    method RemoveAdapter(ghost t: nat, id: string, stop: Outcome, rm: Outcome, rmi: Outcome)
                         returns (r: Result<(), RemoveError>)
      requires Valid() && t < |state.tasks| && state.tasks[t] == Remove(id, Lookup)
      requires Plain(stop) && Plain(rm) && Plain(rmi)
      modifies this, manager
      ensures Valid() && Serves(t, old(actions), old(othersTurn))
      ensures t < |state.tasks| && state.tasks[t] == Remove(id, Removed(r))
      ensures r.Ok? ==> rm == Success && rmi == Success
      ensures HasRemoved(t, id, r)
    {
      hide Valid, Serves, Ready, Next, StepTask, CanStep, HasRemoved;
      ServesSoFar(t);
      var found := FindAdapter(t, id);
      if found.None? {
        RemovalTold(t, id, Err(NoSuchAdapter("adapter not found: " + id)));
        return Err(NoSuchAdapter("adapter not found: " + id));
      }
      if found.value.state == Running {
        RemoveGoesOn(t, Remove(id, StopContainer(found.value)), stop);
        Podman(t, Stop(id), stop);
        if stop.Failed? {
          RemoveGoesOn(t, Remove(id, GiveUp(stop.message)), Success);
          Transition(t, id, Error, Some(stop.message));
          RemovalTold(t, id, Err(PodmanFailed(stop.message)));
          return Err(PodmanFailed(stop.message));
        }
      }
      RemoveGoesOn(t, Remove(id, RemoveContainer(found.value)), rm);
      Podman(t, Rm(id), rm);
      if rm.Failed? {
        RemoveGoesOn(t, Remove(id, GiveUp(rm.message)), Success);
        Transition(t, id, Error, Some(rm.message));
        RemovalTold(t, id, Err(PodmanFailed(rm.message)));
        return Err(PodmanFailed(rm.message));
      }
      RemoveGoesOn(t, Remove(id, RemoveImage(found.value)), rmi);
      Podman(t, Rmi(found.value.imageRef), rmi);
      if rmi.Failed? {
        RemoveGoesOn(t, Remove(id, GiveUp(rmi.message)), Success);
        Transition(t, id, Error, Some(rmi.message));
        RemovalTold(t, id, Err(PodmanFailed(rmi.message)));
        return Err(PodmanFailed(rmi.message));
      }
      RemoveGoesOn(t, Remove(id, Forget(found.value)), Success);
      DropAdapter(t, id);
      RemovalTold(t, id, Ok(()));
      return Ok(());
    }

    // One cycle over the entries that are due when it begins.
    method RunOffloadCycle(ghost t: nat, timeout: nat, rm: nat -> Outcome, rmi: nat -> Outcome)
      requires Valid() && t < |state.tasks| && state.tasks[t] == Offload(timeout, Snapshot)
      requires forall i :: Plain(rm(i)) && Plain(rmi(i))
      modifies this, manager
      ensures Valid() && Serves(t, old(actions), old(othersTurn))
      ensures t < |state.tasks| && state.tasks[t] == Offload(timeout, MarkOffloading([]))
      ensures HasOffloaded(t)
    {
      hide Valid, DeriveAdapterId, Serves, HasOffloaded;
      ServesSoFar(t);
      var candidates := ListCandidates(t, timeout);
      for i := 0 to |candidates|
        invariant Valid() && Serves(t, old(actions), old(othersTurn))
        invariant t < |state.tasks| && state.tasks[t] == Offload(timeout, MarkOffloading(candidates[i..]))
      {
        var adapter := candidates[i];
        assert candidates[i..][0] == adapter && candidates[i..][1..] == candidates[i + 1..];
        Transition(t, adapter.adapterId, Offloading, None);
        Podman(t, Rm(adapter.adapterId), rm(i));
        if rm(i).Failed? {
          Transition(t, adapter.adapterId, Error, Some(rm(i).message));
          continue;
        }
        Podman(t, Rmi(adapter.imageRef), rmi(i));
        if rmi(i).Failed? {
          Transition(t, adapter.adapterId, Error, Some(rmi(i).message));
          continue;
        }
        DropAdapter(t, adapter.adapterId);
      }
      CycleTold(t, timeout);
    }
  }

  // Whatever programs have been carried out and however they were interleaved, the map holds
  // what its events say.
  lemma ProgramsKeepLog(service: UpdateService, id: string)
    requires service.Valid()
    ensures service.manager.events == Broadcast(service.state.history)
    ensures Chained(service.state.history)
            && LoggedState(service.state.history, id) == CurrentState(service.manager.adapters, id)
  {
    EventsDetermineMap(service.actions, id);
  }
}
