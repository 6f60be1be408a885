/**
 The single-adapter constraint of the update service.

 An install stops the running adapter it finds and starts its own only much later, so two
 overlapping installs can leave two adapters running.  `Exclusive` is the exact condition on
 a state under which no continuation of the installs already begun can do that, and a new
 install keeps it exactly when every install still in progress is for the same adapter id.
 */
module SingleRunning {
  import opened Wrappers
  import opened AdapterId
  import opened StateManager
  import opened AdapterTasks

  ghost predicate AtMostOneRunning(s: State) {
    forall x, y ::
      x in s.adapters && y in s.adapters && s.adapters[x].state == Running && s.adapters[y].state == Running ==> x == y
  }

  // An install that has looked for a running adapter and not yet created its own entry.
  predicate Clearing(pc: InstallPc) {
    pc.StopVictim? || pc.MarkStopped? || pc.MarkFailed? || pc.CreateEntry?
  }

  // The points from which an install with an entry can still reach Running.
  predicate Advancing(pc: InstallPc) {
    pc.ToDownloading? || pc.PullImage? || pc.InspectDigest? || pc.ToInstalling? || pc.LaunchContainer? || pc.ToRunning?
  }

  // The task can still make its adapter Running.
  predicate Viable(s: State, t: nat) {
    && t < |s.tasks|
    && s.tasks[t].Install?
    && (Clearing(s.tasks[t].ipc) || (Advancing(s.tasks[t].ipc) && InstallId(s.tasks[t]) in s.adapters))
  }

  // The running adapter that the install is about to mark as no longer running.
  function Victim(pc: InstallPc): Option<string> {
    if pc.StopVictim? || pc.MarkStopped? || pc.MarkFailed? then Some(pc.victim) else None
  }

  ghost predicate Exclusive(s: State) {
    && AtMostOneRunning(s)
    && (forall t: nat, u: nat :: Viable(s, t) && Viable(s, u) ==> InstallId(s.tasks[t]) == InstallId(s.tasks[u]))
    && (forall t: nat, r :: Viable(s, t) && r in s.adapters && s.adapters[r].state == Running ==>
          InstallId(s.tasks[t]) == r || Victim(s.tasks[t].ipc) == Some(r))
  }

  // No install makes its first step, the search for a running adapter.
  ghost predicate StartsNoInstall(s: State, a: Action) {
    a.Step? && a.task < |s.tasks| && s.tasks[a.task].Install? ==> s.tasks[a.task].ipc != ChooseVictim
  }

  ghost predicate IsClosingRun(s: State, actions: seq<Action>)
    decreases |actions|
  {
    actions == []
      || (Enabled(s, actions[0]) && StartsNoInstall(s, actions[0]) && IsClosingRun(Apply(s, actions[0]), actions[1..]))
  }

  // -------- exclusiveness is kept --------

  predicate StartedRunning(s: State, s': State, x: string) {
    x in s'.adapters && s'.adapters[x].state == Running && (x !in s.adapters || s.adapters[x].state != Running)
  }

  // What a step does, seen by other tasks: only an install at its last step makes an adapter
  // Running, and only its own; only an install creates an entry, under its own id.
  lemma StepAdapters(s: State, t: nat, o: Outcome)
    requires t < |s.tasks| && CanStep(s.tasks[t], s.adapters, o, s.clock)
    ensures var task, s' := s.tasks[t], Apply(s, Step(t, o));
            && (forall x :: StartedRunning(s, s', x) ==>
                  task.Install? && task.ipc == ToRunning && x == InstallId(task) && x in s.adapters)
            && (forall x :: x in s'.adapters && x !in s.adapters ==>
                  task.Install? && task.ipc == CreateEntry && x == InstallId(task))
            && (task.Install? && (task.ipc.MarkStopped? || task.ipc.MarkFailed?) ==>
                  (task.ipc.victim in s'.adapters ==> s'.adapters[task.ipc.victim].state != Running))
            && (task.Install? && task.ipc.CreateEntry? ==>
                  InstallId(task) in s'.adapters && s'.adapters[InstallId(task)].state != Running)
  {
  }

  lemma StepTasks(s: State, t: nat, o: Outcome, u: nat)
    requires t < |s.tasks| && CanStep(s.tasks[t], s.adapters, o, s.clock) && Viable(Apply(s, Step(t, o)), u)
    requires s.tasks[t].Install? ==> s.tasks[t].ipc != ChooseVictim
    ensures u < |s.tasks| && s.tasks[u].Install? && InstallId(Apply(s, Step(t, o)).tasks[u]) == InstallId(s.tasks[u])
    ensures u != t ==> Apply(s, Step(t, o)).tasks[u] == s.tasks[u]
    ensures u == t ==> Viable(s, t)
    ensures u == t ==>
              || Victim(s.tasks[t].ipc) == Victim(Apply(s, Step(t, o)).tasks[t].ipc)
              || s.tasks[t].ipc.MarkStopped? || s.tasks[t].ipc.MarkFailed?
    ensures Viable(s, u)
            || (Viable(s, t) && s.tasks[t].ipc == CreateEntry && InstallId(s.tasks[u]) == InstallId(s.tasks[t]))
  {
    StepAdapters(s, t, o);
  }

  lemma AtMostOneKept(s: State, t: nat, o: Outcome)
    requires Exclusive(s) && t < |s.tasks| && CanStep(s.tasks[t], s.adapters, o, s.clock)
    ensures AtMostOneRunning(Apply(s, Step(t, o)))
  {
    hide StepTask, AdaptersAfter;
    StepAdapters(s, t, o);
    assert s.tasks[t].Install? && s.tasks[t].ipc == ToRunning && InstallId(s.tasks[t]) in s.adapters ==> Viable(s, t);
  }

  lemma RunningAccounted(s: State, t: nat, o: Outcome, u: nat, r: string)
    requires Exclusive(s) && t < |s.tasks| && CanStep(s.tasks[t], s.adapters, o, s.clock)
    requires s.tasks[t].Install? ==> s.tasks[t].ipc != ChooseVictim
    requires var s' := Apply(s, Step(t, o)); Viable(s', u) && r in s'.adapters && s'.adapters[r].state == Running
    ensures var s' := Apply(s, Step(t, o)); InstallId(s'.tasks[u]) == r || Victim(s'.tasks[u].ipc) == Some(r)
  {
    hide StepTask, AdaptersAfter;
    StepAdapters(s, t, o);
    StepTasks(s, t, o, u);
  }

  lemma ExclusiveStep(s: State, t: nat, o: Outcome)
    requires Exclusive(s) && t < |s.tasks| && CanStep(s.tasks[t], s.adapters, o, s.clock)
    requires s.tasks[t].Install? ==> s.tasks[t].ipc != ChooseVictim
    ensures Exclusive(Apply(s, Step(t, o)))
  {
    hide StepTask, AdaptersAfter, AtMostOneRunning, Clearing, Advancing;
    var s' := Apply(s, Step(t, o));
    AtMostOneKept(s, t, o);
    forall u: nat, v: nat | Viable(s', u) && Viable(s', v) ensures InstallId(s'.tasks[u]) == InstallId(s'.tasks[v]) {
      StepTasks(s, t, o, u);
      StepTasks(s, t, o, v);
    }
    forall u: nat, r | Viable(s', u) && r in s'.adapters && s'.adapters[r].state == Running
      ensures InstallId(s'.tasks[u]) == r || Victim(s'.tasks[u].ipc) == Some(r)
    {
      RunningAccounted(s, t, o, u, r);
    }
  }

  // An install may begin exactly when every install in progress is for the same adapter.
  ghost predicate MayBegin(s: State, t: nat)
    requires t < |s.tasks| && s.tasks[t].Install?
  {
    forall u: nat :: Viable(s, u) ==> InstallId(s.tasks[u]) == InstallId(s.tasks[t])
  }

  lemma BeginExact(s: State, t: nat, o: Outcome)
    requires Exclusive(s) && t < |s.tasks| && s.tasks[t].Install? && s.tasks[t].ipc == ChooseVictim
    requires CanStep(s.tasks[t], s.adapters, o, s.clock)
    ensures Exclusive(Apply(s, Step(t, o))) <==> MayBegin(s, t)
  {
    var s' := Apply(s, Step(t, o));
    assert s'.adapters == s.adapters;
    assert forall u: nat :: Viable(s', u) <==> u == t || Viable(s, u);
    assert Viable(s', t);
    assert forall u: nat :: u < |s.tasks| && u != t ==> s'.tasks[u] == s.tasks[u];
    if Exclusive(s') {
      forall u: nat | Viable(s, u) ensures InstallId(s.tasks[u]) == InstallId(s.tasks[t]) {
        assert Viable(s', u);
      }
    }
  }

  // -------- every overlap can be driven to two running adapters --------

  // The task has reached its goal without disturbing the others.
  ghost predicate Undisturbed(s: State, s': State, t: nat, touched: set<string>) {
    && |s.tasks| <= |s'.tasks|
    && (forall u :: 0 <= u < |s.tasks| && u != t ==> s'.tasks[u] == s.tasks[u])
    && (forall x :: x in s.adapters ==> x in s'.adapters)
    && (forall x :: x in s.adapters && x !in touched ==> s'.adapters[x] == s.adapters[x])
  }

  function VictimSet(pc: InstallPc): set<string> {
    if Victim(pc).Some? then {Victim(pc).value} else {}
  }

  function StepsLeft(pc: InstallPc): nat {
    match pc
    case StopVictim(_) => 9
    case MarkStopped(_) => 8
    case MarkFailed(_, _) => 8
    case CreateEntry => 7
    case ToDownloading => 6
    case PullImage => 5
    case InspectDigest => 4
    case ToInstalling => 3
    case LaunchContainer => 2
    case ToRunning => 1
    case _ => 0
  }

  // The answer of the environment that lets the install go on.
  function GoodOutcome(task: Task): Outcome
    requires task.Install?
  {
    if task.ipc.InspectDigest? then Digest(task.checksum) else Success
  }

  // One step towards Running.
  ghost predicate Driven(s: State, s': State, t: nat)
    requires Viable(s, t)
  {
    var task := s.tasks[t];
    && Undisturbed(s, s', t, {InstallId(task)} + VictimSet(task.ipc))
    && s'.tasks[t].Install? && InstallId(s'.tasks[t]) == InstallId(task)
    && s'.clock == s.clock
    && (task.ipc == ToRunning ==> InstallId(task) in s'.adapters && s'.adapters[InstallId(task)].state == Running
                                  && s'.tasks[t].ipc == Returned
                                    && s'.tasks[|s.tasks|..] == [Monitor(InstallId(task), Waiting)])
    && (task.ipc != ToRunning ==>
      |s'.tasks| == |s.tasks| && Viable(s', t) && StepsLeft(s'.tasks[t].ipc) < StepsLeft(task.ipc))
    && VictimSet(s'.tasks[t].ipc) <= VictimSet(task.ipc)
    && (Victim(task.ipc).Some? ==> Clearing(s'.tasks[t].ipc) && Undisturbed(s, s', t, VictimSet(task.ipc)))
  }

  lemma DriveClearing(s: State, t: nat)
    requires Viable(s, t) && Clearing(s.tasks[t].ipc)
    ensures CanStep(s.tasks[t], s.adapters, GoodOutcome(s.tasks[t]), s.clock)
    ensures Driven(s, Apply(s, Step(t, GoodOutcome(s.tasks[t]))), t)
  {
  }

  lemma AdvancingStep(task: Task, adapters: Adapters, now: nat)
    requires task.Install? && Advancing(task.ipc)
    ensures CanStep(task, adapters, GoodOutcome(task), now)
    ensures var step := StepTask(task, adapters, GoodOutcome(task), now);
            && step.next.Install? && InstallId(step.next) == InstallId(task)
            && (step.effect.Ask? || (step.effect.Move? && step.effect.id == InstallId(task)))
            && if task.ipc == ToRunning then
                 step.effect.Move? && step.effect.newState == Running && step.next.ipc == Returned
                 && step.spawned == [Monitor(InstallId(task), Waiting)]
               else
                 step.spawned == [] && Advancing(step.next.ipc) && StepsLeft(step.next.ipc) < StepsLeft(task.ipc)
  {
  }

  lemma DriveAdvancing(s: State, t: nat)
    requires Viable(s, t) && Advancing(s.tasks[t].ipc)
    ensures CanStep(s.tasks[t], s.adapters, GoodOutcome(s.tasks[t]), s.clock)
    ensures Driven(s, Apply(s, Step(t, GoodOutcome(s.tasks[t]))), t)
  {
    AdvancingStep(s.tasks[t], s.adapters, s.clock);
    hide StepTask, CanStep, StepsLeft;
  }

  lemma DriveStep(s: State, t: nat)
    requires Viable(s, t)
    ensures CanStep(s.tasks[t], s.adapters, GoodOutcome(s.tasks[t]), s.clock)
    ensures Driven(s, Apply(s, Step(t, GoodOutcome(s.tasks[t]))), t)
  {
    if Clearing(s.tasks[t].ipc) {
      DriveClearing(s, t);
    } else {
      DriveAdvancing(s, t);
    }
    hide StepTask, Driven;
  }

  lemma {:induction false} DriveToRunning(s: State, t: nat) returns (actions: seq<Action>)
    requires Viable(s, t)
    ensures IsRun(s, actions) && IsClosingRun(s, actions)
    ensures var s', id := After(s, actions), InstallId(s.tasks[t]);
            && Undisturbed(s, s', t, {id} + VictimSet(s.tasks[t].ipc))
            && id in s'.adapters && s'.adapters[id].state == Running
            && s'.tasks[t].Install? && InstallId(s'.tasks[t]) == id && s'.tasks[t].ipc == Returned
            && s'.tasks[|s.tasks|..] == [Monitor(id, Waiting)] && s'.clock == s.clock
    ensures forall a :: a in actions ==> a.Step? && a.task == t
    decreases StepsLeft(s.tasks[t].ipc)
  {
    hide StepTask;
    var a := Step(t, GoodOutcome(s.tasks[t]));
    DriveStep(s, t);
    var s1 := Apply(s, a);
    var rest := [];
    if s.tasks[t].ipc != ToRunning {
      rest := DriveToRunning(s1, t);
    } else {
      assert After(s1, rest) == s1;
    }
    actions := [a] + rest;
    assert actions[0] == a && actions[1..] == rest;
  }

  lemma {:induction false} DriveToCreate(s: State, t: nat) returns (actions: seq<Action>)
    requires Viable(s, t) && Clearing(s.tasks[t].ipc)
    ensures IsRun(s, actions) && IsClosingRun(s, actions)
    ensures var s' := After(s, actions);
            && Undisturbed(s, s', t, VictimSet(s.tasks[t].ipc))
            && Viable(s', t) && InstallId(s'.tasks[t]) == InstallId(s.tasks[t]) && s'.tasks[t].ipc == CreateEntry
    decreases StepsLeft(s.tasks[t].ipc)
  {
    hide StepTask;
    if s.tasks[t].ipc == CreateEntry {
      actions := [];
    } else {
      var a := Step(t, GoodOutcome(s.tasks[t]));
      DriveStep(s, t);
      var rest := DriveToCreate(Apply(s, a), t);
      actions := [a] + rest;
      assert actions[0] == a && actions[1..] == rest;
    }
  }

  lemma {:induction false} ClosingConcat(s: State, first: seq<Action>, second: seq<Action>)
    requires IsRun(s, first) && IsClosingRun(s, first)
    requires IsRun(After(s, first), second) && IsClosingRun(After(s, first), second)
    ensures IsRun(s, first + second) && IsClosingRun(s, first + second)
    ensures After(s, first + second) == After(After(s, first), second)
    decreases |first|
  {
    RunConcat(s, first, second);
    if first == [] {
      assert first + second == second;
    } else {
      hide Enabled, Apply, StartsNoInstall;
      ClosingConcat(Apply(s, first[0]), first[1..], second);
      assert (first + second)[1..] == first[1..] + second;
    }
  }

  ghost predicate Breaks(s: State, actions: seq<Action>) {
    IsRun(s, actions) && IsClosingRun(s, actions) && !AtMostOneRunning(After(s, actions))
  }

  // An install whose adapter is neither the running one nor about to replace it.
  lemma BreakByOne(s: State, t: nat, r: string) returns (actions: seq<Action>)
    requires Viable(s, t) && r in s.adapters && s.adapters[r].state == Running
    requires InstallId(s.tasks[t]) != r && Victim(s.tasks[t].ipc) != Some(r)
    ensures Breaks(s, actions)
  {
    actions := DriveToRunning(s, t);
    var s' := After(s, actions);
    assert s'.adapters[r] == s.adapters[r];
  }

  // Two installs for different adapters.
  lemma BreakByTwo(s: State, t: nat, u: nat) returns (actions: seq<Action>)
    requires Viable(s, t) && Viable(s, u) && InstallId(s.tasks[t]) != InstallId(s.tasks[u])
    ensures Breaks(s, actions)
  {
    var first := [];
    if Clearing(s.tasks[t].ipc) {
      first := DriveToCreate(s, t);
    }
    var s1 := After(s, first);
    assert Viable(s1, t) && Victim(s1.tasks[t].ipc) == None && InstallId(s1.tasks[t]) == InstallId(s.tasks[t]);
    assert Viable(s1, u) && s1.tasks[u] == s.tasks[u];
    var second := DriveToRunning(s1, u);
    var s2 := After(s1, second);
    assert Viable(s2, t) && s2.tasks[t] == s1.tasks[t];
    var third := BreakByOne(s2, t, InstallId(s.tasks[u]));
    ClosingConcat(s1, second, third);
    ClosingConcat(s, first, second + third);
    actions := first + (second + third);
  }

  lemma NotExclusiveBreaks(s: State) returns (actions: seq<Action>)
    requires !Exclusive(s)
    ensures Breaks(s, actions)
  {
    if !AtMostOneRunning(s) {
      actions := [];
    } else if t: nat, u: nat :| Viable(s, t) && Viable(s, u) && InstallId(s.tasks[t]) != InstallId(s.tasks[u]) {
      actions := BreakByTwo(s, t, u);
    } else {
      var t: nat, r :| Viable(s, t) && r in s.adapters && s.adapters[r].state == Running
        && InstallId(s.tasks[t]) != r && Victim(s.tasks[t].ipc) != Some(r);
      actions := BreakByOne(s, t, r);
    }
  }

  lemma ExclusiveSubmit(s: State, a: Action)
    requires Exclusive(s) && !a.Step?
    ensures Exclusive(Apply(s, a))
  {
    var s' := Apply(s, a);
    assert forall u: nat :: Viable(s', u) ==> Viable(s, u) && s'.tasks[u] == s.tasks[u];
  }

  lemma {:induction false} ExclusiveKept(s: State, actions: seq<Action>)
    requires Exclusive(s) && IsRun(s, actions) && IsClosingRun(s, actions)
    ensures AtMostOneRunning(After(s, actions))
    decreases |actions|
  {
    if actions == [] {
    } else {
      var a := actions[0];
      if a.Step? {
        ExclusiveStep(s, a.task, a.outcome);
      } else {
        ExclusiveSubmit(s, a);
      }
      ExclusiveKept(Apply(s, a), actions[1..]);
    }
  }

  // -------- main results --------

  // From any state, the installs already begun, interleaved with any other tasks, can never
  // bring about two running adapters exactly when the state is exclusive.
  lemma SingleRunningIff(s: State)
    ensures (forall actions :: !Breaks(s, actions)) <==> Exclusive(s)
  {
    if Exclusive(s) {
      forall actions ensures !Breaks(s, actions) {
        if IsRun(s, actions) && IsClosingRun(s, actions) {
          ExclusiveKept(s, actions);
        }
      }
    } else {
      var actions := NotExclusiveBreaks(s);
    }
  }

  // Runs in which every install begins only when the installs in progress are for the same
  // adapter id; in particular, runs that serialise the installs.
  ghost predicate IsGuardedRun(s: State, actions: seq<Action>)
    decreases |actions|
  {
    actions == []
    || (Enabled(s, actions[0])
        && (!StartsNoInstall(s, actions[0]) ==> MayBegin(s, actions[0].task))
        && IsGuardedRun(Apply(s, actions[0]), actions[1..]))
  }

  lemma {:induction false} GuardedKept(s: State, actions: seq<Action>)
    requires Exclusive(s) && IsRun(s, actions) && IsGuardedRun(s, actions)
    ensures Exclusive(After(s, actions))
    decreases |actions|
  {
    if actions == [] {
    } else {
      var a := actions[0];
      if !a.Step? {
        ExclusiveSubmit(s, a);
      } else if StartsNoInstall(s, a) {
        ExclusiveStep(s, a.task, a.outcome);
      } else {
        BeginExact(s, a.task, a.outcome);
      }
      GuardedKept(Apply(s, a), actions[1..]);
    }
  }

  // In every guarded run from the initial state at most one adapter is ever running.
  lemma SingleRunningGuarded(actions: seq<Action>)
    requires IsRun(INITIAL, actions) && IsGuardedRun(INITIAL, actions)
    ensures AtMostOneRunning(After(INITIAL, actions))
  {
    GuardedKept(INITIAL, actions);
  }

  // No install in progress at all: every other install task has yet to begin or is past the
  // point from which it could reach Running.
  lemma SerialisedIsGuarded(s: State, t: nat)
    requires t < |s.tasks| && s.tasks[t].Install?
    requires forall u :: 0 <= u < |s.tasks| && s.tasks[u].Install? ==> s.tasks[u].ipc in {ChooseVictim, Returned}
    ensures MayBegin(s, t)
  {
  }

  // Two installs for different adapters that overlap from the start break the constraint.
  lemma OverlapExample() returns (actions: seq<Action>)
    ensures IsRun(INITIAL, actions) && !AtMostOneRunning(After(INITIAL, actions))
  {
    var s0 := INITIAL;
    var a, b := SubmitInstall("a", "x", "1"), SubmitInstall("b", "y", "2");
    var s1 := Apply(s0, a);
    var s2 := Apply(s1, b);
    var c, d := Step(0, Found(None)), Step(1, Found(None));
    var s3 := Apply(s2, c);
    var s4 := Apply(s3, d);
    var start := [a] + ([b] + ([c] + [d]));
    RunOne(s3, d, []);
    RunOne(s2, c, [d]);
    RunOne(s1, b, [c] + [d]);
    RunOne(s0, a, [b] + ([c] + [d]));
    assert InstallId(s4.tasks[0]) == "a" && InstallId(s4.tasks[1]) == "b";
    var rest := BreakByTwo(s4, 0, 1);
    RunConcat(s0, start, rest);
    actions := start + rest;
  }
}
