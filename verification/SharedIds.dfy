/**
 Schedules in which adapter ids are shared.

 A task that has read or is waiting for something keeps the id of the adapter it concerns,
 and later moves whatever adapter then has that id.  `OnGuard` is the exact condition on a
 state under which no continuation takes an event of an install in flight off the table of
 transitions, as long as nobody asks anew for the same adapter.
 */
module SharedIds {
  import opened Wrappers
  import opened AdapterId
  import opened StateManager
  import opened AdapterTasks
  import opened FreshInstalls

  // The states to which an install can next move its own adapter.
  function NextMoves(pc: InstallPc): set<AdapterState> {
    match pc
    case ToDownloading => {Downloading}
    case PullImage => {Error, Installing}
    case InspectDigest => {Error, Installing}
    case DownloadFailed(_) => {Error}
    case Mismatch => {Error}
    case ToInstalling => {Installing}
    case LaunchContainer => {Error, Running}
    case LaunchFailed(_) => {Error}
    case ToRunning => {Running}
    case _ => {}
  }

  predicate HasVictim(pc: InstallPc, id: string) {
    (pc.StopVictim? || pc.MarkStopped? || pc.MarkFailed?) && pc.victim == id
  }

  // The task is about to create an entry of the id.
  predicate Creates(task: Task, id: string) {
    IsOwn(task, id) && BeforeEntry(task.ipc) && task.ipc != ChooseVictim
  }

  ghost predicate IsQueued(queue: seq<AdapterEntry>, id: string) {
    exists i :: 0 <= i < |queue| && queue[i].adapterId == id
  }

  // The task can still bring an adapter of the id to Stopped or Error: an install that has
  // begun for the same id or is to stop it, a monitor that has not reported, a removal past
  // its lookup, and an offload cycle that has listed it.  A removal or cycle that only has
  // to forget the adapter cannot.
  ghost predicate Meddles(task: Task, id: string) {
    match task
    case Install(_, _, _, pc) =>
      HasVictim(pc, id) || (InstallId(task) == id && pc != ChooseVictim && pc != DropImage && pc != Returned)
    case Monitor(x, pc) => x == id && pc != Reported
    case Remove(x, pc) => x == id && !pc.Lookup? && !pc.Forget? && !pc.Removed?
    case Offload(_, pc) => IsQueued(QueueOf(pc), id) && !(pc.OffloadForget? && pc.queue[0].adapterId == id)
  }

  ghost predicate InFlightTask(s: State, t: nat) {
    t < |s.tasks| && s.tasks[t].Install? && InFlight(s.tasks[t].ipc)
  }

  // No other task can bring the adapter to Stopped or Error, or, if it is gone, is about to
  // create it again.
  ghost predicate LeftAlone(s: State, keep: nat, id: string) {
    if id in s.adapters then forall v :: 0 <= v < |s.tasks| && v != keep ==> !Meddles(s.tasks[v], id)
    else forall v :: 0 <= v < |s.tasks| && v != keep ==> !Creates(s.tasks[v], id)
  }

  // The install will not move its adapter again; or it can only do so along the table and no
  // other task can interfere; or the adapter is gone and nobody is about to create it again.
  ghost predicate OnGuard(s: State, t: nat)
    requires InFlightTask(s, t)
  {
    var id, moves := InstallId(s.tasks[t]), NextMoves(s.tasks[t].ipc);
    || moves == {}
    || (&& LeftAlone(s, t, id)
        && (id in s.adapters ==>
              s.adapters[id].state != Running && forall m :: m in moves ==> InTable(s.adapters[id].state, m)))
  }

  // While the install is in flight, no other install of its id begins and no removal looks
  // its id up.
  ghost predicate Spares(s: State, t: nat, a: Action) {
    InFlightTask(s, t) && a.Step? && a.task < |s.tasks| ==>
      var id, task := InstallId(s.tasks[t]), s.tasks[a.task];
      !(IsOwn(task, id) && task.ipc == ChooseVictim) && !(task.Remove? && task.id == id && task.rpc == Lookup)
  }

  // The step does not look the id up: no install of the id begins, no install chooses it as
  // its victim, no removal looks for it and no cycle lists it.
  ghost predicate QuietStep(task: Task, o: Outcome, id: string) {
    match task
    case Install(_, _, _, pc) =>
      pc == ChooseVictim ==> InstallId(task) != id && !(o.Found? && o.entry.Some? && o.entry.value.adapterId == id)
    case Monitor(_, _) => true
    case Remove(x, pc) => !(x == id && pc == Lookup)
    case Offload(_, pc) => !(pc.Snapshot? && o.Listed? && IsQueued(o.entries, id))
  }

  ghost predicate IsQuietRun(s: State, id: string, actions: seq<Action>)
    decreases |actions|
  {
    actions == []
    || (Enabled(s, actions[0])
        && (actions[0].Step? ==> QuietStep(s.tasks[actions[0].task], actions[0].outcome, id))
        && IsQuietRun(Apply(s, actions[0]), id, actions[1..]))
  }

  ghost predicate IsSparingRun(s: State, t: nat, actions: seq<Action>)
    decreases |actions|
  {
    actions == []
      || (Enabled(s, actions[0]) && Spares(s, t, actions[0]) && IsSparingRun(Apply(s, actions[0]), t, actions[1..]))
  }

  // An event of the task about this adapter that is not an edge of the table.
  predicate IsStray(item: Item, t: nat, id: string) {
    item.actor == t && item.fact.Moved? && item.fact.id == id && !InTable(item.fact.oldState, item.fact.newState)
  }

  ghost predicate HasStray(s: State, from: nat, t: nat, id: string) {
    exists k :: from <= k < |s.history| && IsStray(s.history[k], t, id)
  }

  ghost predicate Strays(s: State, t: nat, actions: seq<Action>)
    requires InFlightTask(s, t)
  {
    IsRun(s, actions) && IsSparingRun(s, t, actions)
      && HasStray(After(s, actions), |s.history|, t, InstallId(s.tasks[t]))
  }

  lemma {:induction false} HistoryGrows(s: State, actions: seq<Action>)
    requires IsRun(s, actions)
    ensures s.history <= After(s, actions).history
    decreases |actions|
  {
    if actions == [] {
    } else {
      hide StepTask;
      HistoryGrows(Apply(s, actions[0]), actions[1..]);
    }
  }

  lemma {:induction false} SparingConcat(s: State, t: nat, first: seq<Action>, second: seq<Action>)
    requires IsRun(s, first) && IsSparingRun(s, t, first)
    requires IsRun(After(s, first), second) && IsSparingRun(After(s, first), t, second)
    ensures IsRun(s, first + second) && IsSparingRun(s, t, first + second)
    ensures After(s, first + second) == After(After(s, first), second)
    decreases |first|
  {
    RunConcat(s, first, second);
    if first == [] {
      assert first + second == second;
    } else {
      hide Enabled, Apply, Spares;
      SparingConcat(Apply(s, first[0]), t, first[1..], second);
      assert (first + second)[1..] == first[1..] + second;
    }
  }

  lemma StraysAfter(s: State, t: nat, first: seq<Action>, second: seq<Action>)
    requires InFlightTask(s, t) && IsRun(s, first) && IsSparingRun(s, t, first)
    requires InFlightTask(After(s, first), t) && InstallId(After(s, first).tasks[t]) == InstallId(s.tasks[t])
    requires Strays(After(s, first), t, second)
    ensures Strays(s, t, first + second)
  {
    SparingConcat(s, t, first, second);
    HistoryGrows(s, first);
  }

  lemma QuietOne(s: State, id: string, a: Action)
    requires Enabled(s, a) && (a.Step? ==> QuietStep(s.tasks[a.task], a.outcome, id))
    ensures IsRun(s, [a]) && IsQuietRun(s, id, [a]) && After(s, [a]) == Apply(s, a)
  {
    assert [a][0] == a && [a][1..] == [];
  }

  lemma {:induction false} QuietConcat(s: State, id: string, first: seq<Action>, second: seq<Action>)
    requires IsRun(s, first) && IsQuietRun(s, id, first)
    requires IsRun(After(s, first), second) && IsQuietRun(After(s, first), id, second)
    ensures IsRun(s, first + second) && IsQuietRun(s, id, first + second)
    ensures After(s, first + second) == After(After(s, first), second)
    decreases |first|
  {
    RunConcat(s, first, second);
    if first == [] {
      assert first + second == second;
    } else {
      hide Enabled, Apply, QuietStep;
      QuietConcat(Apply(s, first[0]), id, first[1..], second);
      assert (first + second)[1..] == first[1..] + second;
    }
  }

  // A run that does not look up the id of an install spares the install.
  lemma {:induction false} QuietIsSparing(s: State, t: nat, id: string, actions: seq<Action>)
    requires t < |s.tasks| && IsOwn(s.tasks[t], id) && IsQuietRun(s, id, actions)
    ensures IsSparingRun(s, t, actions)
    decreases |actions|
  {
    if actions == [] {
    } else {
      var a := actions[0];
      if a.Step? {
        StepShape(s.tasks[a.task], s.adapters, a.outcome, s.clock);
      }
      hide StepTask;
      QuietIsSparing(Apply(s, a), t, id, actions[1..]);
    }
  }

  lemma SparingOne(s: State, t: nat, a: Action)
    requires Enabled(s, a) && Spares(s, t, a)
    ensures IsRun(s, [a]) && IsSparingRun(s, t, [a]) && After(s, [a]) == Apply(s, a)
  {
    assert [a][0] == a && [a][1..] == [];
  }

  // -------- a guarded install stays on the table --------

  ghost predicate Guarded(s: State, t: nat) {
    && t < |s.tasks| && s.tasks[t].Install?
    && (s.tasks[t].ipc == Returned || (InFlight(s.tasks[t].ipc) && OnGuard(s, t)))
  }

  lemma HarmlessOffload(task: Task, adapters: Adapters, o: Outcome, now: nat, id: string)
    requires task.Offload? && CanStep(task, adapters, o, now) && !Meddles(task, id) && QuietStep(task, o, id)
    ensures var step := StepTask(task, adapters, o, now);
            && !(step.effect.Move? && step.effect.id == id)
            && (!(step.effect.Delete? && step.effect.id == id) && id in adapters ==> !Meddles(step.next, id))
  {
    var pc := task.opc;
    if !pc.Snapshot? && pc.queue != [] {
      assert pc.queue[0].adapterId == id ==> IsQueued(pc.queue, id);
      assert forall i :: 0 <= i < |pc.queue[1..]| ==> pc.queue[1..][i] == pc.queue[i + 1];
    }
  }

  // What a task that cannot interfere does next.
  lemma HarmlessStep(task: Task, adapters: Adapters, o: Outcome, now: nat, id: string)
    requires CanStep(task, adapters, o, now) && !Meddles(task, id) && QuietStep(task, o, id)
    ensures var step := StepTask(task, adapters, o, now);
            && !(step.effect.Put? && step.effect.entry.adapterId == id) && !(step.effect.Move? && step.effect.id == id)
            && (!(step.effect.Delete? && step.effect.id == id) && id in adapters ==> !Meddles(step.next, id))
            && !Creates(step.next, id) && (forall u :: 0 <= u < |step.spawned| ==> !Meddles(step.spawned[u], id))
  {
    match task
    case Install(_, _, _, _) =>
    case Monitor(_, _) =>
    case Remove(_, _) =>
    case Offload(_, pc) => HarmlessOffload(task, adapters, o, now, id);
  }

  // An adapter that is neither running nor stopped is found by nobody who does not ask for it.
  lemma UnfoundIsQuiet(task: Task, adapters: Adapters, o: Outcome, now: nat, id: string)
    requires CanStep(task, adapters, o, now)
    requires !(IsOwn(task, id) && task.ipc == ChooseVictim) && !(task.Remove? && task.id == id && task.rpc == Lookup)
    requires id in adapters ==> adapters[id].state != Running && adapters[id].state != Stopped
    ensures QuietStep(task, o, id)
  {
  }

  lemma AbsentStep(task: Task, adapters: Adapters, o: Outcome, now: nat, id: string)
    requires CanStep(task, adapters, o, now) && !Creates(task, id) && !(IsOwn(task, id) && task.ipc == ChooseVictim)
    ensures var step := StepTask(task, adapters, o, now);
            && !(step.effect.Put? && step.effect.entry.adapterId == id)
            && !Creates(step.next, id) && (forall u :: 0 <= u < |step.spawned| ==> !Creates(step.spawned[u], id))
  {
  }

  // The install's own step: it moves its adapter as announced.
  lemma OwnStep(task: Task, adapters: Adapters, o: Outcome, now: nat)
    requires task.Install? && InFlight(task.ipc) && CanStep(task, adapters, o, now)
    ensures var step, id := StepTask(task, adapters, o, now), InstallId(task);
            && step.next.Install? && InstallId(step.next) == id && !BeforeEntry(step.next.ipc)
            && (step.effect.Ask? || step.effect.Move?)
            && (step.effect.Ask? ==> NextMoves(step.next.ipc) <= NextMoves(task.ipc))
            && (step.effect.Move? ==> step.effect.id == id && step.effect.newState in NextMoves(task.ipc))
            && (step.effect.Move? ==> forall m :: m in NextMoves(step.next.ipc) ==> InTable(step.effect.newState, m))
            && (step.effect.Move? && step.effect.newState == Running ==> step.next.ipc == Returned)
            && (NextMoves(task.ipc) == {} ==> step.next.ipc == Returned)
            && (step.spawned != [] ==> step.next.ipc == Returned)
  {
  }

  lemma OwnStepGuarded(s: State, t: nat, o: Outcome)
    requires InFlightTask(s, t) && OnGuard(s, t) && CanStep(s.tasks[t], s.adapters, o, s.clock)
    ensures Guarded(Apply(s, Step(t, o)), t) && !HasStray(Apply(s, Step(t, o)), |s.history|, t, InstallId(s.tasks[t]))
  {
    hide StepTask, Meddles, Creates, InTable;
    OwnStep(s.tasks[t], s.adapters, o, s.clock);
    var s' := Apply(s, Step(t, o));
    var step := StepTask(s.tasks[t], s.adapters, o, s.clock);
    assert step.spawned == [] ==> s'.tasks == s.tasks[t := step.next];
    assert |s'.history| <= |s.history| + 1;
  }

  // A step that does not look the adapter up leaves it alone, or deletes it.
  lemma LeftAloneStep(s: State, keep: nat, v: nat, o: Outcome, id: string)
    requires LeftAlone(s, keep, id)
    requires v < |s.tasks| && v != keep && CanStep(s.tasks[v], s.adapters, o, s.clock) && QuietStep(s.tasks[v], o, id)
    ensures var s' := Apply(s, Step(v, o));
            && LeftAlone(s', keep, id)
            && (id in s'.adapters ==> id in s.adapters && s'.adapters[id] == s.adapters[id])
  {
    if id in s.adapters {
      HarmlessStep(s.tasks[v], s.adapters, o, s.clock, id);
      forall w | 0 <= w < |s.tasks| && w != keep ensures !Creates(s.tasks[w], id) {
        assert !Meddles(s.tasks[w], id);
      }
    }
    AbsentStep(s.tasks[v], s.adapters, o, s.clock, id);
    hide StepTask, CanStep, Meddles, Creates, QuietStep;
  }

  lemma OtherStepGuarded(s: State, t: nat, u: nat, o: Outcome)
    requires InFlightTask(s, t) && OnGuard(s, t) && u < |s.tasks| && u != t
             && CanStep(s.tasks[u], s.adapters, o, s.clock)
    requires Spares(s, t, Step(u, o))
    ensures Guarded(Apply(s, Step(u, o)), t)
  {
    hide StepTask, Meddles, Creates;
    var s', id := Apply(s, Step(u, o)), InstallId(s.tasks[t]);
    assert s'.tasks[t] == s.tasks[t];
    if NextMoves(s.tasks[t].ipc) != {} {
      UnfoundIsQuiet(s.tasks[u], s.adapters, o, s.clock, id);
      LeftAloneStep(s, t, u, o, id);
    }
  }

  lemma SubmitGuarded(s: State, t: nat, a: Action)
    requires InFlightTask(s, t) && OnGuard(s, t) && !a.Step?
    ensures Guarded(Apply(s, a), t)
  {
    var s' := Apply(s, a);
    assert s'.tasks[t] == s.tasks[t];
    assert forall v :: |s.tasks| <= v < |s'.tasks| ==>
      !Meddles(s'.tasks[v], InstallId(s.tasks[t])) && !Creates(s'.tasks[v], InstallId(s.tasks[t]));
  }

  lemma ReturnedStays(task: Task, adapters: Adapters, o: Outcome, now: nat)
    requires task.Install? && task.ipc == Returned
    ensures !CanStep(task, adapters, o, now)
  {
  }

  lemma GuardedStep(s: State, t: nat, a: Action)
    requires Guarded(s, t) && Enabled(s, a) && Spares(s, t, a)
    ensures Guarded(Apply(s, a), t) && InstallId(Apply(s, a).tasks[t]) == InstallId(s.tasks[t])
    ensures !HasStray(Apply(s, a), |s.history|, t, InstallId(s.tasks[t]))
  {
    hide OnGuard, StepTask;
    if s.tasks[t].ipc == Returned {
      assert a.Step? ==> a.task != t by {
        if a.Step? && a.task == t {
          ReturnedStays(s.tasks[t], s.adapters, a.outcome, s.clock);
        }
      }
    } else if !a.Step? {
      SubmitGuarded(s, t, a);
    } else if a.task == t {
      OwnStepGuarded(s, t, a.outcome);
      OwnStep(s.tasks[t], s.adapters, a.outcome, s.clock);
    } else {
      OtherStepGuarded(s, t, a.task, a.outcome);
    }
  }

  lemma {:induction false} GuardedNeverStrays(s: State, t: nat, actions: seq<Action>)
    requires Guarded(s, t) && IsRun(s, actions) && IsSparingRun(s, t, actions)
    ensures !HasStray(After(s, actions), |s.history|, t, InstallId(s.tasks[t]))
    decreases |actions|
  {
    if actions == [] {
    } else {
      var s1 := Apply(s, actions[0]);
      GuardedStep(s, t, actions[0]);
      GuardedNeverStrays(s1, t, actions[1..]);
      HistoryGrows(s1, actions[1..]);
      hide Guarded, Apply, IsStray;
      var id, final := InstallId(s.tasks[t]), After(s, actions);
      forall k | |s.history| <= k < |final.history| ensures !IsStray(final.history[k], t, id) {
        if k < |s1.history| {
          assert final.history[k] == s1.history[k];
        }
      }
    }
  }

  // -------- every other state has a continuation off the table --------

  function Rank(task: Task): nat {
    match task
    case Install(_, _, _, pc) =>
      (match pc
       case StopVictim(_) => 12
       case MarkStopped(_) => 11
       case MarkFailed(_, _) => 11
       case CreateEntry => 10
       case ToDownloading => 9
       case PullImage => 8
       case InspectDigest => 7
       case ToInstalling => 6
       case LaunchContainer => 5
       case DropImage => 0
       case Returned => 0
       case _ => 4)
    case Monitor(_, pc) => if pc.Waiting? then 2 else 1
    case Remove(_, pc) =>
      (match pc
       case StopContainer(_) => 4
       case RemoveContainer(_) => 3
       case RemoveImage(_) => 2
       case _ => 1)
    case Offload(_, pc) =>
      (match pc
       case Snapshot => 0
       case MarkOffloading(q) => 4 * |q| + 3
       case OffloadFailed(q, _) => 4 * |q| + 1
       case OffloadForget(q) => 4 * |q| + 1
       case _ => 4 * |pc.queue| + 2)
  }

  // The answer that takes a meddling task towards stopping or failing an adapter.
  function BadOutcome(task: Task): Outcome {
    match task
    case Install(_, _, _, pc) => if pc.PullImage? || pc.InspectDigest? || pc.LaunchContainer? then Failed("")
      else Success
    case Monitor(_, pc) => if pc.Waiting? then Exit(0) else Success
    case Remove(_, pc) => if pc.GiveUp? then Success else Failed("")
    case Offload(_, pc) => if pc.OffloadContainer? || pc.OffloadImage? then Failed("") else Success
  }

  ghost predicate IsDead(adapters: Adapters, id: string) {
    id in adapters && adapters[id].state in {Stopped, Error}
  }

  // The task can be driven on: its adapter is there or it will create it.
  ghost predicate Drivable(task: Task, adapters: Adapters, id: string) {
    Meddles(task, id) && (id in adapters || Creates(task, id))
  }

  // One step closer: the adapter is dead, or the task goes on, or it leaves a monitor.
  ghost predicate Closer(task: Task, adapters: Adapters, now: nat, id: string)
    requires CanStep(task, adapters, BadOutcome(task), now)
  {
    var step := StepTask(task, adapters, BadOutcome(task), now);
    var adapters' := AdaptersAfter(adapters, step.effect, now);
    || IsDead(adapters', id)
    || (Drivable(step.next, adapters', id) && Rank(step.next) < Rank(task))
    || (step.spawned == [Monitor(id, Waiting)] && id in adapters' && Rank(Monitor(id, Waiting)) < Rank(task))
  }

  lemma InstallCloser(task: Task, adapters: Adapters, now: nat, id: string)
    requires task.Install? && Drivable(task, adapters, id)
    ensures CanStep(task, adapters, BadOutcome(task), now) && Closer(task, adapters, now, id)
  {
  }

  lemma OffloadCloser(task: Task, adapters: Adapters, now: nat, id: string)
    requires task.Offload? && Drivable(task, adapters, id)
    ensures CanStep(task, adapters, BadOutcome(task), now) && Closer(task, adapters, now, id)
  {
    var q := task.opc.queue;
    var i :| 0 <= i < |q| && q[i].adapterId == id;
    if q[0].adapterId != id {
      assert q[1..][i - 1] == q[i];
    }
  }

  lemma TaskCloser(task: Task, adapters: Adapters, now: nat, id: string)
    requires Drivable(task, adapters, id)
    ensures CanStep(task, adapters, BadOutcome(task), now) && Closer(task, adapters, now, id)
  {
    match task
    case Install(_, _, _, _) => InstallCloser(task, adapters, now, id);
    case Monitor(_, _) =>
    case Remove(_, _) =>
    case Offload(_, _) => OffloadCloser(task, adapters, now, id);
  }

  lemma DrivableIsQuiet(task: Task, adapters: Adapters, id: string)
    requires Drivable(task, adapters, id)
    ensures QuietStep(task, BadOutcome(task), id)
  {
  }

  lemma WaitingMeddles(id: string)
    ensures Meddles(Monitor(id, Waiting), id)
  {
  }

  // A meddling task, left alone, stops or fails the adapter.
  lemma {:induction false} Kill(s: State, id: string, u: nat) returns (actions: seq<Action>)
    requires u < |s.tasks| && Drivable(s.tasks[u], s.adapters, id)
    ensures IsRun(s, actions) && IsQuietRun(s, id, actions)
    ensures var s' := After(s, actions);
            && IsDead(s'.adapters, id)
            && |s.tasks| <= |s'.tasks| && forall t :: 0 <= t < |s.tasks| && t != u ==> s'.tasks[t] == s.tasks[t]
    decreases Rank(s.tasks[u])
  {
    var a := Step(u, BadOutcome(s.tasks[u]));
    TaskCloser(s.tasks[u], s.adapters, s.clock, id);
    DrivableIsQuiet(s.tasks[u], s.adapters, id);
    QuietOne(s, id, a);
    var s1 := Apply(s, a);
    var step := StepTask(s.tasks[u], s.adapters, a.outcome, s.clock);
    hide StepTask, AdaptersAfter, Meddles, Creates, QuietStep, IsRun, IsQuietRun, After;
    actions := [a];
    if !IsDead(s1.adapters, id) {
      var heir := u;
      if !(Drivable(step.next, s1.adapters, id) && Rank(step.next) < Rank(s.tasks[u])) {
        heir := |s.tasks|;
        WaitingMeddles(id);
      }
      assert Drivable(s1.tasks[heir], s1.adapters, id);
      var rest := Kill(s1, id, heir);
      QuietConcat(s, id, [a], rest);
      actions := [a] + rest;
    }
  }

  // The answer that takes an install to moving its adapter to a given state.
  function OutcomeTowards(task: Task, target: AdapterState): Outcome
    requires task.Install?
  {
    match task.ipc
    case PullImage => if target == Installing then Success else Failed("")
    case InspectDigest => if target == Installing then Digest(task.checksum) else Failed("")
    case LaunchContainer => if target == Running then Success else Failed("")
    case _ => Success
  }

  lemma StrikeStep(task: Task, adapters: Adapters, now: nat, target: AdapterState)
    requires task.Install? && InFlight(task.ipc) && target in NextMoves(task.ipc)
    ensures var o := OutcomeTowards(task, target);
            && CanStep(task, adapters, o, now)
            && var step := StepTask(task, adapters, o, now);
            if step.effect.Move? then step.effect.id == InstallId(task) && step.effect.newState == target
            else
              && step.effect.Ask? && step.next.Install? && InFlight(step.next.ipc)
                && InstallId(step.next) == InstallId(task)
              && target in NextMoves(step.next.ipc) && Rank(step.next) < Rank(task)
  {
  }

  // The install, left alone, moves its adapter to any of the states it can move it to next.
  lemma {:induction false} Strike(s: State, t: nat, target: AdapterState) returns (actions: seq<Action>)
    requires InFlightTask(s, t) && target in NextMoves(s.tasks[t].ipc) && InstallId(s.tasks[t]) in s.adapters
    requires !InTable(s.adapters[InstallId(s.tasks[t])].state, target)
    ensures Strays(s, t, actions)
    decreases Rank(s.tasks[t])
  {
    hide StepTask, InTable;
    var id, a := InstallId(s.tasks[t]), Step(t, OutcomeTowards(s.tasks[t], target));
    StrikeStep(s.tasks[t], s.adapters, s.clock, target);
    assert Spares(s, t, a);
    SparingOne(s, t, a);
    var s1 := Apply(s, a);
    if StepTask(s.tasks[t], s.adapters, a.outcome, s.clock).effect.Move? {
      actions := [a];
      assert IsStray(s1.history[|s.history|], t, id);
    } else {
      var rest := Strike(s1, t, target);
      StraysAfter(s, t, [a], rest);
      actions := [a] + rest;
    }
  }

  // The adapter runs although its install is in flight: an install for another adapter can
  // choose it as its victim.
  lemma RunningChosen(s: State, t: nat) returns (actions: seq<Action>)
    requires InFlightTask(s, t) && WellKeyed(s.adapters)
    requires InstallId(s.tasks[t]) in s.adapters && s.adapters[InstallId(s.tasks[t])].state == Running
    ensures IsRun(s, actions) && IsSparingRun(s, t, actions)
    ensures var s', n := After(s, actions), |s.tasks|;
            && |s'.tasks| == n + 1 && s'.tasks[t] == s.tasks[t] && s'.adapters == s.adapters
            && s'.tasks[n].Install? && s'.tasks[n].ipc == StopVictim(InstallId(s.tasks[t]))
  {
    var id, n := InstallId(s.tasks[t]), |s.tasks|;
    PlainId("a");
    PlainId("b");
    var submit := SubmitInstall(if id == "a" then "b" else "a", "checksum", "job");
    var choose := Step(n, Found(Some(s.adapters[id])));
    hide DeriveAdapterId;
    var s1 := Apply(s, submit);
    assert s1.tasks[n].Install? && s1.tasks[n].ipc == ChooseVictim && InstallId(s1.tasks[n]) != id;
    SparingOne(s, t, submit);
    SparingOne(s1, t, choose);
    SparingConcat(s, t, [submit], [choose]);
    actions := [submit] + [choose];
  }

  lemma KillAndStrike(s: State, t: nat, u: nat) returns (actions: seq<Action>)
    requires InFlightTask(s, t) && NextMoves(s.tasks[t].ipc) != {}
    requires u < |s.tasks| && u != t && Drivable(s.tasks[u], s.adapters, InstallId(s.tasks[t]))
    ensures Strays(s, t, actions)
  {
    var id := InstallId(s.tasks[t]);
    var first := Kill(s, id, u);
    QuietIsSparing(s, t, id, first);
    var s1 := After(s, first);
    var target :| target in NextMoves(s.tasks[t].ipc);
    assert target != Offloading;
    var second := Strike(s1, t, target);
    StraysAfter(s, t, first, second);
    actions := first + second;
  }

  lemma CreatorMeddles(task: Task, id: string)
    requires Creates(task, id)
    ensures Meddles(task, id)
  {
  }

  lemma VictimMeddles(task: Task, id: string)
    requires task.Install? && task.ipc == StopVictim(id)
    ensures Meddles(task, id)
  {
  }

  lemma UnguardedStrays(s: State, t: nat) returns (actions: seq<Action>)
    requires InFlightTask(s, t) && WellKeyed(s.adapters) && !OnGuard(s, t)
    ensures Strays(s, t, actions)
  {
    hide Meddles, Creates, Strays, NextMoves;
    var id := InstallId(s.tasks[t]);
    if id !in s.adapters {
      var u :| 0 <= u < |s.tasks| && u != t && Creates(s.tasks[u], id);
      CreatorMeddles(s.tasks[u], id);
      actions := KillAndStrike(s, t, u);
    } else if s.adapters[id].state == Running {
      var first := RunningChosen(s, t);
      var s1 := After(s, first);
      VictimMeddles(s1.tasks[|s.tasks|], id);
      var second := KillAndStrike(s1, t, |s.tasks|);
      StraysAfter(s, t, first, second);
      actions := first + second;
    } else if m :| m in NextMoves(s.tasks[t].ipc) && !InTable(s.adapters[id].state, m) {
      actions := Strike(s, t, m);
    } else {
      var u :| 0 <= u < |s.tasks| && u != t && Meddles(s.tasks[u], id);
      actions := KillAndStrike(s, t, u);
    }
  }

  // -------- main results --------

  // From any state, and whatever all tasks go on to do while nobody asks anew for the same
  // adapter: no event of an install in flight about its own adapter leaves the table, if and
  // only if the state is guarded.
  lemma OwnEventsIff(s: State, t: nat)
    requires InFlightTask(s, t) && WellKeyed(s.adapters)
    ensures (forall actions :: !Strays(s, t, actions)) <==> OnGuard(s, t)
  {
    if OnGuard(s, t) {
      forall actions ensures !Strays(s, t, actions) {
        if IsRun(s, actions) && IsSparingRun(s, t, actions) {
          GuardedNeverStrays(s, t, actions);
        }
      }
    } else {
      var actions := UnguardedStrays(s, t);
    }
  }

  // When an install creates its entry, whether its events will stay on the table depends on
  // the other tasks only.
  lemma CreationIff(s: State, t: nat)
    requires t < |s.tasks| && s.tasks[t].Install? && s.tasks[t].ipc == CreateEntry
    ensures var s' := Apply(s, Step(t, Success));
            && InFlightTask(s', t)
            && (OnGuard(s', t) <==> forall u :: 0 <= u < |s.tasks| && u != t ==>
              !Meddles(s.tasks[u], InstallId(s.tasks[t])))
  {
    hide Meddles, Creates;
    var s' := Apply(s, Step(t, Success));
    assert |s'.tasks| == |s.tasks| && forall u :: 0 <= u < |s.tasks| && u != t ==> s'.tasks[u] == s.tasks[u];
  }
}
