/**
 The events of a task about an adapter that it did not install: the stopping of a victim, the
 report of a monitor, the failure of a removal and the marks of an offload cycle.

 Such a task has looked its adapter up and acts on it later.  `IsSafe` is the exact condition
 on a state under which none of its remaining events can leave the table of transitions, as
 long as nobody looks the adapter up anew.
 */
module ForeignEvents {
  import opened Wrappers
  import opened AdapterId
  import opened StateManager
  import opened AdapterTasks
  import opened FreshInstalls
  import opened SharedIds

  // The states to which the task can next move the adapter.
  ghost function ForeignMoves(task: Task, id: string): set<AdapterState> {
    match task
    case Install(_, _, _, pc) =>
      (match pc
       case StopVictim(v) => if v == id then {Stopped, Error} else {}
       case MarkStopped(v) => if v == id then {Stopped} else {}
       case MarkFailed(v, _) => if v == id then {Error} else {}
       case _ => {})
    case Monitor(x, pc) =>
      if x != id || pc == Reported then {}
      else if pc.Waiting? then {Stopped, Error}
      else if pc == Exited(0) then {Stopped} else {Error}
    case Remove(x, pc) => if x != id || pc.Lookup? || pc.Forget? || pc.Removed? then {} else {Error}
    case Offload(_, pc) =>
      if !IsQueued(QueueOf(pc), id) then {}
      else if pc.queue[0].adapterId != id || pc.MarkOffloading? then {Offloading}
      else if pc.OffloadForget? then {} else {Error}
  }

  // A cycle lists no adapter twice.
  ghost predicate HasDistinctQueue(task: Task) {
    task.Offload? ==>
      var q := QueueOf(task.opc); forall i, j :: 0 <= i < j < |q| ==> q[i].adapterId != q[j].adapterId
  }

  // The task can still move the adapter, which it does not install.
  ghost predicate CanStillMove(s: State, u: nat, id: string) {
    u < |s.tasks| && !IsOwn(s.tasks[u], id) && HasDistinctQueue(s.tasks[u]) && ForeignMoves(s.tasks[u], id) != {}
  }

  // The task can next move the adapter along the table only and no other task can interfere;
  // or the adapter is gone and nobody is about to create it again.
  ghost predicate IsSafe(s: State, u: nat, id: string)
    requires u < |s.tasks|
  {
    && LeftAlone(s, u, id)
    && (id in s.adapters ==> forall m :: m in ForeignMoves(s.tasks[u], id) ==> InTable(s.adapters[id].state, m))
  }

  // As long as the task can still move the adapter, nobody looks it up.
  ghost predicate IsUnaskedRun(s: State, u: nat, id: string, actions: seq<Action>)
    decreases |actions|
  {
    actions == []
    || (Enabled(s, actions[0])
        && (actions[0].Step? && CanStillMove(s, u, id) ==> QuietStep(s.tasks[actions[0].task], actions[0].outcome, id))
        && IsUnaskedRun(Apply(s, actions[0]), u, id, actions[1..]))
  }

  ghost predicate ForeignStrays(s: State, u: nat, id: string, actions: seq<Action>) {
    IsRun(s, actions) && IsUnaskedRun(s, u, id, actions) && HasStray(After(s, actions), |s.history|, u, id)
  }

  // -------- a safe task stays on the table --------

  // The task will not move the adapter any more.
  ghost predicate IsDone(task: Task, id: string) {
    && !IsOwn(task, id) && HasDistinctQueue(task) && ForeignMoves(task, id) == {}
    && match task
       case Install(_, _, _, pc) => pc != ChooseVictim
       case Monitor(_, _) => true
       case Remove(x, pc) => x == id ==> pc != Lookup
       case Offload(_, pc) => !pc.Snapshot?
  }

  predicate Concerns(effect: Effect, id: string) {
    match effect
    case Put(e) => e.adapterId == id
    case Move(x, _, _) => x == id
    case Delete(x) => x == id
    case _ => false
  }

  lemma TailQueued(q: seq<AdapterEntry>, id: string)
    requires q != [] && forall i, j :: 0 <= i < j < |q| ==> q[i].adapterId != q[j].adapterId
    ensures forall i, j :: 0 <= i < j < |q[1..]| ==> q[1..][i].adapterId != q[1..][j].adapterId
    ensures IsQueued(q[1..], id) <==> IsQueued(q, id) && q[0].adapterId != id
  {
    if i :| 0 <= i < |q| && q[i].adapterId == id {
      if i > 0 {
        assert q[1..][i - 1] == q[i];
      }
    }
  }

  // Done tasks stay done.
  lemma DoneStep(task: Task, adapters: Adapters, o: Outcome, now: nat, id: string)
    requires IsDone(task, id) && CanStep(task, adapters, o, now)
    ensures var step := StepTask(task, adapters, o, now);
            IsDone(step.next, id) && !(step.effect.Move? && step.effect.id == id)
  {
    if task.Offload? && task.opc.queue != [] {
      TailQueued(task.opc.queue, id);
      assert task.opc.queue[0].adapterId == id ==> IsQueued(task.opc.queue, id);
    }
  }

  // The own step of a task that can still move the adapter.
  lemma MovingStep(task: Task, adapters: Adapters, o: Outcome, now: nat, id: string)
    requires !IsOwn(task, id) && HasDistinctQueue(task) && ForeignMoves(task, id) != {}
             && CanStep(task, adapters, o, now)
    ensures var step := StepTask(task, adapters, o, now);
            && !IsOwn(step.next, id) && HasDistinctQueue(step.next) && step.spawned == []
            && (ForeignMoves(step.next, id) == {} ==> IsDone(step.next, id))
            && if Concerns(step.effect, id) then
                 && step.effect.Move? && step.effect.newState in ForeignMoves(task, id)
                 && forall m :: m in ForeignMoves(step.next, id) ==> InTable(step.effect.newState, m)
               else
                 ForeignMoves(step.next, id) <= ForeignMoves(task, id)
  {
    if task.Offload? {
      TailQueued(task.opc.queue, id);
    }
  }

  ghost predicate OnTrack(s: State, u: nat, id: string) {
    && u < |s.tasks|
    && (IsDone(s.tasks[u], id) || (CanStillMove(s, u, id) && IsSafe(s, u, id)))
  }

  lemma Untouched(adapters: Adapters, effect: Effect, now: nat, id: string)
    ensures var adapters' := AdaptersAfter(adapters, effect, now);
            && (!Concerns(effect, id) ==>
                  (id in adapters' <==> id in adapters) && (id in adapters ==> adapters'[id] == adapters[id]))
            && (effect.Move? && effect.id == id ==>
                  (id in adapters' <==> id in adapters) && (id in adapters ==> adapters'[id].state == effect.newState))
  {
  }

  lemma OwnStepOnTrack(s: State, u: nat, o: Outcome, id: string)
    requires CanStillMove(s, u, id) && IsSafe(s, u, id) && CanStep(s.tasks[u], s.adapters, o, s.clock)
    ensures OnTrack(Apply(s, Step(u, o)), u, id) && !HasStray(Apply(s, Step(u, o)), |s.history|, u, id)
  {
    MovingStep(s.tasks[u], s.adapters, o, s.clock, id);
    var step, s' := StepTask(s.tasks[u], s.adapters, o, s.clock), Apply(s, Step(u, o));
    Untouched(s.adapters, step.effect, s.clock, id);
    hide StepTask, CanStep, ForeignMoves, Meddles, Creates, InTable, IsDone, HasDistinctQueue, IsOwn, AdaptersAfter;
    assert s'.tasks == s.tasks[u := step.next];
    assert |s'.history| <= |s.history| + 1;
  }

  lemma DoneStepOnTrack(s: State, u: nat, o: Outcome, id: string)
    requires u < |s.tasks| && IsDone(s.tasks[u], id) && CanStep(s.tasks[u], s.adapters, o, s.clock)
    ensures OnTrack(Apply(s, Step(u, o)), u, id) && !HasStray(Apply(s, Step(u, o)), |s.history|, u, id)
  {
    DoneStep(s.tasks[u], s.adapters, o, s.clock, id);
    hide StepTask, CanStep, IsDone;
    assert |Apply(s, Step(u, o)).history| <= |s.history| + 1;
  }

  lemma OtherStepOnTrack(s: State, u: nat, v: nat, o: Outcome, id: string)
    requires CanStillMove(s, u, id) && IsSafe(s, u, id)
    requires v < |s.tasks| && v != u && CanStep(s.tasks[v], s.adapters, o, s.clock) && QuietStep(s.tasks[v], o, id)
    ensures OnTrack(Apply(s, Step(v, o)), u, id)
  {
    LeftAloneStep(s, u, v, o, id);
    hide StepTask, CanStep, ForeignMoves, LeftAlone, InTable, IsDone, HasDistinctQueue, QuietStep;
    assert Apply(s, Step(v, o)).tasks[u] == s.tasks[u];
  }

  lemma SubmitOnTrack(s: State, u: nat, a: Action, id: string)
    requires OnTrack(s, u, id) && !a.Step?
    ensures OnTrack(Apply(s, a), u, id)
  {
    hide ForeignMoves, IsDone, HasDistinctQueue, InTable;
    var s' := Apply(s, a);
    assert s'.tasks[u] == s.tasks[u];
    assert forall v :: |s.tasks| <= v < |s'.tasks| ==> !Meddles(s'.tasks[v], id) && !Creates(s'.tasks[v], id);
  }

  lemma OnTrackStep(s: State, u: nat, a: Action, id: string)
    requires OnTrack(s, u, id) && Enabled(s, a)
    requires a.Step? && CanStillMove(s, u, id) ==> QuietStep(s.tasks[a.task], a.outcome, id)
    ensures OnTrack(Apply(s, a), u, id) && !HasStray(Apply(s, a), |s.history|, u, id)
  {
    if !a.Step? {
      SubmitOnTrack(s, u, a, id);
    } else if a.task == u {
      if IsDone(s.tasks[u], id) {
        DoneStepOnTrack(s, u, a.outcome, id);
      } else {
        OwnStepOnTrack(s, u, a.outcome, id);
      }
    } else {
      if !IsDone(s.tasks[u], id) {
        OtherStepOnTrack(s, u, a.task, a.outcome, id);
      }
      hide StepTask, CanStep, IsDone, CanStillMove, IsSafe;
      assert Apply(s, a).tasks[u] == s.tasks[u];
    }
  }

  lemma {:induction false} OnTrackNeverStrays(s: State, u: nat, id: string, actions: seq<Action>)
    requires OnTrack(s, u, id) && IsRun(s, actions) && IsUnaskedRun(s, u, id, actions)
    ensures !HasStray(After(s, actions), |s.history|, u, id)
    decreases |actions|
  {
    if actions == [] {
    } else {
      var s1 := Apply(s, actions[0]);
      OnTrackStep(s, u, actions[0], id);
      OnTrackNeverStrays(s1, u, id, actions[1..]);
      HistoryGrows(s1, actions[1..]);
      hide OnTrack, Apply, IsStray, CanStillMove;
      var final := After(s, actions);
      forall k | |s.history| <= k < |final.history| ensures !IsStray(final.history[k], u, id) {
        if k < |s1.history| {
          assert final.history[k] == s1.history[k];
        }
      }
    }
  }

  // -------- every other state has a continuation off the table --------

  lemma {:induction false} QuietIsUnasked(s: State, u: nat, id: string, actions: seq<Action>)
    requires IsQuietRun(s, id, actions)
    ensures IsRun(s, actions) && IsUnaskedRun(s, u, id, actions)
    decreases |actions|
  {
    if actions == [] {
    } else {
      hide Apply, QuietStep, CanStillMove;
      QuietIsUnasked(Apply(s, actions[0]), u, id, actions[1..]);
    }
  }

  // A quiet run, after which the task strays.
  ghost predicate QuietlyStrays(s: State, u: nat, id: string, actions: seq<Action>) {
    IsRun(s, actions) && IsQuietRun(s, id, actions) && HasStray(After(s, actions), |s.history|, u, id)
  }

  lemma QuietlyStraysAfter(s: State, u: nat, id: string, first: seq<Action>, second: seq<Action>)
    requires IsRun(s, first) && IsQuietRun(s, id, first) && QuietlyStrays(After(s, first), u, id, second)
    ensures QuietlyStrays(s, u, id, first + second)
  {
    QuietConcat(s, id, first, second);
    HistoryGrows(s, first);
  }

  // The answer that takes the task to moving the adapter to a given state.
  function AnswerTowards(task: Task, target: AdapterState): Outcome {
    match task
    case Install(_, _, _, pc) => if pc.StopVictim? && target != Stopped then Failed("") else Success
    case Monitor(_, pc) => if !pc.Waiting? then Success else if target == Stopped then Exit(0) else Failed("")
    case Remove(_, pc) => if pc.GiveUp? then Success else Failed("")
    case Offload(_, pc) => if pc.OffloadContainer? || pc.OffloadImage? then Failed("") else Success
  }

  lemma TowardsStep(task: Task, adapters: Adapters, now: nat, id: string, target: AdapterState)
    requires !IsOwn(task, id) && HasDistinctQueue(task) && target in ForeignMoves(task, id)
    ensures var o := AnswerTowards(task, target);
            && CanStep(task, adapters, o, now) && QuietStep(task, o, id)
            && var step := StepTask(task, adapters, o, now);
            if Concerns(step.effect, id) then step.effect.Move? && step.effect.newState == target
            else target in ForeignMoves(step.next, id) && Rank(step.next) < Rank(task)
  {
    if task.Offload? {
      TailQueued(task.opc.queue, id);
    }
  }

  // An offload cycle that has marked the adapter can only still fail.
  lemma MarkedStep(task: Task, adapters: Adapters, now: nat, id: string)
    requires !IsOwn(task, id) && HasDistinctQueue(task) && Offloading in ForeignMoves(task, id)
    ensures var o := AnswerTowards(task, Offloading);
            && CanStep(task, adapters, o, now)
            && var step := StepTask(task, adapters, o, now); Concerns(step.effect, id) ==>
              ForeignMoves(step.next, id) == {Error}
  {
  }

  // One step of the task towards moving the adapter.
  lemma MoveOne(s: State, u: nat, id: string, target: AdapterState)
    requires CanStillMove(s, u, id) && target in ForeignMoves(s.tasks[u], id) && id in s.adapters
    ensures var a := Step(u, AnswerTowards(s.tasks[u], target));
            && Enabled(s, a) && QuietStep(s.tasks[u], a.outcome, id)
            && var s1 := Apply(s, a);
            && |s1.tasks| == |s.tasks| && (forall v :: 0 <= v < |s.tasks| && v != u ==> s1.tasks[v] == s.tasks[v])
            && !IsOwn(s1.tasks[u], id) && HasDistinctQueue(s1.tasks[u]) && id in s1.adapters
            && if Concerns(StepTask(s.tasks[u], s.adapters, a.outcome, s.clock).effect, id) then
                 && s1.adapters[id].state == target
                   && (target == Offloading ==> ForeignMoves(s1.tasks[u], id) == {Error})
                 && |s1.history| == |s.history| + 1 && s1.history[|s.history|].actor == u
                 && IsMove(s1.history[|s.history|].fact, id, s.adapters[id].state, target)
               else
                 && s1.adapters[id] == s.adapters[id]
                 && target in ForeignMoves(s1.tasks[u], id) && Rank(s1.tasks[u]) < Rank(s.tasks[u])
  {
    var task, o := s.tasks[u], AnswerTowards(s.tasks[u], target);
    TowardsStep(task, s.adapters, s.clock, id, target);
    MovingStep(task, s.adapters, o, s.clock, id);
    if target == Offloading {
      MarkedStep(task, s.adapters, s.clock, id);
    }
    hide StepTask, CanStep, ForeignMoves, InTable, QuietStep, HasDistinctQueue, IsOwn, Rank;
  }

  // The task, left alone, moves the adapter to any of the states it can move it to next.
  lemma {:induction false} MoveTo(s: State, u: nat, id: string, target: AdapterState) returns (actions: seq<Action>)
    requires CanStillMove(s, u, id) && target in ForeignMoves(s.tasks[u], id) && id in s.adapters
    ensures IsRun(s, actions) && IsQuietRun(s, id, actions)
    ensures var s' := After(s, actions);
            && |s'.tasks| == |s.tasks| && (forall v :: 0 <= v < |s.tasks| && v != u ==> s'.tasks[v] == s.tasks[v])
            && id in s'.adapters && s'.adapters[id].state == target
            && !IsOwn(s'.tasks[u], id) && HasDistinctQueue(s'.tasks[u])
            && (target == Offloading ==> ForeignMoves(s'.tasks[u], id) == {Error})
    ensures !InTable(s.adapters[id].state, target) ==> QuietlyStrays(s, u, id, actions)
    decreases Rank(s.tasks[u])
  {
    var a := Step(u, AnswerTowards(s.tasks[u], target));
    MoveOne(s, u, id, target);
    QuietOne(s, id, a);
    var moved := Concerns(StepTask(s.tasks[u], s.adapters, a.outcome, s.clock).effect, id);
    hide StepTask, CanStep, Apply, ForeignMoves, InTable, QuietStep, HasDistinctQueue, IsOwn, Rank, IsRun, IsQuietRun,
      After;
    var s1 := Apply(s, a);
    actions := [a];
    if moved {
      assert IsStray(s1.history[|s.history|], u, id) <==> !InTable(s.adapters[id].state, target);
    } else {
      var rest := MoveTo(s1, u, id, target);
      QuietConcat(s, id, [a], rest);
      if !InTable(s.adapters[id].state, target) {
        QuietlyStraysAfter(s, u, id, [a], rest);
      }
      actions := [a] + rest;
    }
  }

  lemma CreatorStep(task: Task, adapters: Adapters, now: nat, id: string)
    requires Creates(task, id) && id !in adapters
    ensures CanStep(task, adapters, Success, now) && QuietStep(task, Success, id)
    ensures var step := StepTask(task, adapters, Success, now);
            && step.spawned == []
            && if step.effect.Put? then step.effect.entry.adapterId == id && step.effect.entry.state == Unknown
               else Creates(step.next, id) && Rank(step.next) < Rank(task)
  {
  }

  // A task that is about to create the adapter, left alone, does so.
  lemma {:induction false} Create(s: State, id: string, v: nat) returns (actions: seq<Action>)
    requires v < |s.tasks| && Creates(s.tasks[v], id) && id !in s.adapters
    ensures IsRun(s, actions) && IsQuietRun(s, id, actions)
    ensures var s' := After(s, actions);
            && |s'.tasks| == |s.tasks| && (forall w :: 0 <= w < |s.tasks| && w != v ==> s'.tasks[w] == s.tasks[w])
            && id in s'.adapters && s'.adapters[id].state == Unknown
    decreases Rank(s.tasks[v])
  {
    var a := Step(v, Success);
    CreatorStep(s.tasks[v], s.adapters, s.clock, id);
    QuietOne(s, id, a);
    var step, s1 := StepTask(s.tasks[v], s.adapters, Success, s.clock), Apply(s, a);
    hide StepTask, CanStep, Creates, QuietStep, IsRun, IsQuietRun, After;
    actions := [a];
    if !step.effect.Put? {
      var rest := Create(s1, id, v);
      QuietConcat(s, id, [a], rest);
      actions := [a] + rest;
    }
  }

  lemma MovesOffDead(task: Task, id: string, state: AdapterState, target: AdapterState)
    requires target in ForeignMoves(task, id)
    ensures !InTable(Unknown, target)
    ensures target != Offloading && state in {Stopped, Error} ==> !InTable(state, target)
    ensures Offloading in ForeignMoves(task, id) ==> ForeignMoves(task, id) == {Offloading}
  {
  }

  lemma CreateAndMove(s: State, u: nat, id: string, v: nat) returns (actions: seq<Action>)
    requires CanStillMove(s, u, id) && id !in s.adapters && v < |s.tasks| && v != u && Creates(s.tasks[v], id)
    ensures QuietlyStrays(s, u, id, actions)
  {
    var target :| target in ForeignMoves(s.tasks[u], id);
    MovesOffDead(s.tasks[u], id, Stopped, target);
    hide ForeignMoves, Creates, InTable, HasDistinctQueue, IsRun, IsQuietRun, After, QuietlyStrays;
    var first := Create(s, id, v);
    var second := MoveTo(After(s, first), u, id, target);
    QuietlyStraysAfter(s, u, id, first, second);
    actions := first + second;
  }

  lemma KillAndMove(s: State, u: nat, id: string, v: nat, target: AdapterState) returns (actions: seq<Action>)
    requires CanStillMove(s, u, id) && id in s.adapters && v < |s.tasks| && v != u && Meddles(s.tasks[v], id)
    requires target in ForeignMoves(s.tasks[u], id) && target != Offloading
    ensures QuietlyStrays(s, u, id, actions)
  {
    var first := Kill(s, id, v);
    var s1 := After(s, first);
    MovesOffDead(s.tasks[u], id, s1.adapters[id].state, target);
    hide ForeignMoves, Meddles, InTable, HasDistinctQueue, IsRun, IsQuietRun, After, QuietlyStrays;
    var second := MoveTo(s1, u, id, target);
    QuietlyStraysAfter(s, u, id, first, second);
    actions := first + second;
  }

  lemma MarkKillAndFail(s: State, u: nat, id: string, v: nat) returns (actions: seq<Action>)
    requires CanStillMove(s, u, id) && id in s.adapters && v < |s.tasks| && v != u && Meddles(s.tasks[v], id)
    requires Offloading in ForeignMoves(s.tasks[u], id)
    ensures QuietlyStrays(s, u, id, actions)
  {
    hide ForeignMoves, Meddles, InTable, HasDistinctQueue, IsRun, IsQuietRun, After, QuietlyStrays;
    var first := MoveTo(s, u, id, Offloading);
    var second := KillAndMove(After(s, first), u, id, v, Error);
    QuietlyStraysAfter(s, u, id, first, second);
    actions := first + second;
  }

  lemma UnsafeStrays(s: State, u: nat, id: string) returns (actions: seq<Action>)
    requires CanStillMove(s, u, id) && !IsSafe(s, u, id)
    ensures QuietlyStrays(s, u, id, actions)
  {
    hide ForeignMoves, Meddles, Creates, InTable, QuietlyStrays, HasDistinctQueue;
    if id !in s.adapters {
      var v :| 0 <= v < |s.tasks| && v != u && Creates(s.tasks[v], id);
      actions := CreateAndMove(s, u, id, v);
    } else if m :| m in ForeignMoves(s.tasks[u], id) && !InTable(s.adapters[id].state, m) {
      actions := MoveTo(s, u, id, m);
    } else {
      var v :| 0 <= v < |s.tasks| && v != u && Meddles(s.tasks[v], id);
      var target :| target in ForeignMoves(s.tasks[u], id);
      if target == Offloading {
        actions := MarkKillAndFail(s, u, id, v);
      } else {
        actions := KillAndMove(s, u, id, v, target);
      }
    }
  }

  // -------- main results --------

  // From any state, and whatever all tasks go on to do while nobody looks the adapter up
  // anew: no event of the task about the adapter leaves the table, if and only if the state
  // is safe.
  lemma ForeignEventsIff(s: State, u: nat, id: string)
    requires CanStillMove(s, u, id)
    ensures (forall actions :: !ForeignStrays(s, u, id, actions)) <==> IsSafe(s, u, id)
  {
    if IsSafe(s, u, id) {
      forall actions ensures !ForeignStrays(s, u, id, actions) {
        if IsRun(s, actions) && IsUnaskedRun(s, u, id, actions) {
          OnTrackNeverStrays(s, u, id, actions);
        }
      }
    } else {
      var actions := UnsafeStrays(s, u, id);
      QuietIsUnasked(s, u, id, actions);
      assert ForeignStrays(s, u, id, actions);
    }
  }

  // When a cycle lists an adapter, its marks will stay on the table exactly when no other
  // task can still stop or fail an adapter of that id.
  lemma ListingIff(s: State, u: nat, o: Outcome, i: nat)
    requires u < |s.tasks| && s.tasks[u].Offload? && s.tasks[u].opc == Snapshot
             && CanStep(s.tasks[u], s.adapters, o, s.clock)
    requires i < |o.entries|
    ensures var s', id := Apply(s, Step(u, o)), o.entries[i].adapterId;
            && CanStillMove(s', u, id)
            && (IsSafe(s', u, id) <==> forall v :: 0 <= v < |s.tasks| && v != u ==> !Meddles(s.tasks[v], id))
  {
    hide Meddles;
    var s', id := Apply(s, Step(u, o)), o.entries[i].adapterId;
    assert s'.tasks[u] == s.tasks[u].(opc := MarkOffloading(o.entries)) && s'.adapters == s.adapters;
    assert |s'.tasks| == |s.tasks| && forall v :: 0 <= v < |s.tasks| && v != u ==> s'.tasks[v] == s.tasks[v];
    assert ForeignMoves(s'.tasks[u], id) == {Offloading};
    assert s.adapters[id].state == Stopped;
  }

  // When an install for another id chooses its victim, so will its event about it.
  lemma VictimIff(s: State, u: nat, e: AdapterEntry)
    requires u < |s.tasks| && s.tasks[u].Install? && s.tasks[u].ipc == ChooseVictim
             && InstallId(s.tasks[u]) != e.adapterId
    requires IsRunningChoice(s.adapters, Some(e))
    ensures var s', id := Apply(s, Step(u, Found(Some(e)))), e.adapterId;
            && CanStillMove(s', u, id)
            && (IsSafe(s', u, id) <==> forall v :: 0 <= v < |s.tasks| && v != u ==> !Meddles(s.tasks[v], id))
  {
    hide Meddles;
    var s' := Apply(s, Step(u, Found(Some(e))));
    assert s'.tasks[u] == s.tasks[u].(ipc := StopVictim(e.adapterId)) && s'.adapters == s.adapters;
    assert |s'.tasks| == |s.tasks| && forall v :: 0 <= v < |s.tasks| && v != u ==> s'.tasks[v] == s.tasks[v];
    assert ForeignMoves(s'.tasks[u], e.adapterId) == {Stopped, Error};
  }

  lemma DistinctStep(task: Task, adapters: Adapters, o: Outcome, now: nat)
    requires HasDistinctQueue(task) && CanStep(task, adapters, o, now)
    ensures var step := StepTask(task, adapters, o, now);
            HasDistinctQueue(step.next) && forall v :: 0 <= v < |step.spawned| ==> step.spawned[v].Monitor?
  {
    if task.Offload? && QueueOf(task.opc) != [] {
      TailQueued(task.opc.queue, "");
    }
  }

  ghost predicate QueuesDistinct(s: State) {
    forall u :: 0 <= u < |s.tasks| ==> HasDistinctQueue(s.tasks[u])
  }

  lemma NewTasksDistinct(s: State, a: Action)
    requires Enabled(s, a) && QueuesDistinct(s)
    ensures QueuesDistinct(Apply(s, a))
  {
    if a.Step? {
      DistinctStep(s.tasks[a.task], s.adapters, a.outcome, s.clock);
    }
    hide StepTask;
  }

  // In every run no cycle has an adapter in its queue twice, as the main result assumes.
  lemma {:induction false} QueuesAlwaysDistinct(s: State, actions: seq<Action>)
    requires QueuesDistinct(s) && IsRun(s, actions)
    ensures QueuesDistinct(After(s, actions))
    decreases |actions|
  {
    if actions == [] {
    } else {
      var a := actions[0];
      NewTasksDistinct(s, a);
      hide StepTask, QueuesDistinct;
      QueuesAlwaysDistinct(Apply(s, a), actions[1..]);
    }
  }
}
