/**
 Runs that show where the intended order of adapter states is not met: a monitor that
 reports after its adapter was stopped, an adapter id that is installed twice, and an
 offload cycle that reaches an adapter which has meanwhile been started again.
 */
module CounterRuns {
  import opened Wrappers
  import opened AdapterId
  import opened StateManager
  import opened AdapterTasks
  import opened FreshInstalls
  import opened SingleRunning

  lemma PoliteOne(s: State, a: Action, rest: seq<Action>)
    requires Enabled(s, a) && Polite(s, a) && IsPoliteRun(Apply(s, a), rest)
    ensures IsPoliteRun(s, [a] + rest)
  {
    assert ([a] + rest)[0] == a && ([a] + rest)[1..] == rest;
  }

  lemma {:induction false} PoliteConcat(s: State, first: seq<Action>, second: seq<Action>)
    requires IsRun(s, first) && IsPoliteRun(s, first) && IsPoliteRun(After(s, first), second)
    ensures IsPoliteRun(s, first + second)
    decreases |first|
  {
    if first == [] {
      assert first + second == second;
    } else {
      hide Enabled, Apply, Polite;
      PoliteConcat(Apply(s, first[0]), first[1..], second);
      assert (first + second)[0] == first[0] && (first + second)[1..] == first[1..] + second;
    }
  }

  lemma {:induction false} InstallStepsPolite(s: State, actions: seq<Action>, t: nat)
    requires t < |s.tasks| && s.tasks[t].Install? && IsRun(s, actions)
    requires forall a :: a in actions ==> a.Step? && a.task == t
    ensures IsPoliteRun(s, actions)
    decreases |actions|
  {
    if actions == [] {
    } else {
      var a := actions[0];
      assert a in actions;
      StepShape(s.tasks[t], s.adapters, a.outcome, s.clock);
      InstallStepsPolite(Apply(s, a), actions[1..], t);
    }
  }

  ghost predicate HasEvent(s: State, actor: nat, id: string, oldState: AdapterState, newState: AdapterState) {
    exists k :: 0 <= k < |s.history| && s.history[k].actor == actor
      && IsMove(s.history[k].fact, id, oldState, newState)
  }

  // A step appended to a run, when what it does is already known.
  lemma Extend(s: State, actions: seq<Action>, a: Action)
    requires IsRun(s, actions) && Enabled(After(s, actions), a)
    ensures IsRun(s, actions + [a]) && After(s, actions + [a]) == Apply(After(s, actions), a)
    ensures IsPoliteRun(s, actions) && Polite(After(s, actions), a) ==> IsPoliteRun(s, actions + [a])
  {
    RunOne(After(s, actions), a, []);
    RunConcat(s, actions, [a]);
    if IsPoliteRun(s, actions) && Polite(After(s, actions), a) {
      PoliteOne(After(s, actions), a, []);
      PoliteConcat(s, actions, [a]);
    }
  }

  // An install that finds nothing running.
  lemma NothingChosen(s: State, image: string) returns (actions: seq<Action>)
    requires image != "" && forall id :: id in s.adapters ==> s.adapters[id].state != Running
    ensures IsRun(s, actions) && (!HasInstall(s.tasks, DeriveAdapterId(image)) ==> IsPoliteRun(s, actions))
    ensures var s' := After(s, actions);
            s'.adapters == s.adapters && s'.tasks == s.tasks + [Install(image, "checksum", "job", CreateEntry)]
  {
    var submit, choose := SubmitInstall(image, "checksum", "job"), Step(|s.tasks|, Found(None));
    Extend(s, [], submit);
    Extend(s, [] + [submit], choose);
    actions := [] + [submit] + [choose];
  }

  // A complete install while nothing is running.
  lemma InstallToRunning(s: State, image: string) returns (actions: seq<Action>)
    requires image != "" && forall id :: id in s.adapters ==> s.adapters[id].state != Running
    ensures IsRun(s, actions)
    ensures var s', id, n := After(s, actions), DeriveAdapterId(image), |s.tasks|;
            && |s'.tasks| == n + 2 && (forall u :: 0 <= u < n ==> s'.tasks[u] == s.tasks[u])
            && s'.tasks[n].Install? && InstallId(s'.tasks[n]) == id && s'.tasks[n].ipc == Returned
            && s'.tasks[n + 1] == Monitor(id, Waiting)
            && id in s'.adapters && s'.adapters[id].state == Running
            && (forall x :: x in s.adapters ==> x in s'.adapters && (x != id ==> s'.adapters[x] == s.adapters[x]))
    ensures !HasInstall(s.tasks, DeriveAdapterId(image)) ==> IsPoliteRun(s, actions)
  {
    hide IsRun, IsPoliteRun, After, HasInstall, DeriveAdapterId, Apply;
    var n := |s.tasks|;
    var first := NothingChosen(s, image);
    var s1 := After(s, first);
    var second := DriveToRunning(s1, n);
    var s2 := After(s1, second);
    assert s2.tasks == s2.tasks[..n + 1] + s2.tasks[n + 1..];
    RunConcat(s, first, second);
    actions := first + second;
    if !HasInstall(s.tasks, DeriveAdapterId(image)) {
      InstallStepsPolite(s1, second, n);
      PoliteConcat(s, first, second);
    }
  }

  // A second install finds the running adapter and stops it.
  lemma VictimChosen(s: State, image: string, victim: string) returns (actions: seq<Action>)
    requires image != "" && WellKeyed(s.adapters) && victim in s.adapters && s.adapters[victim].state == Running
    ensures IsRun(s, actions) && (!HasInstall(s.tasks, DeriveAdapterId(image)) ==> IsPoliteRun(s, actions))
    ensures var s', n := After(s, actions), |s.tasks|;
            s'.adapters == s.adapters && s'.tasks == s.tasks + [Install(image, "checksum", "job", StopVictim(victim))]
  {
    var submit, choose := SubmitInstall(image, "checksum", "job"), Step(|s.tasks|, Found(Some(s.adapters[victim])));
    Extend(s, [], submit);
    Extend(s, [] + [submit], choose);
    actions := [] + [submit] + [choose];
  }

  lemma VictimStopped(s: State, t: nat, victim: string) returns (actions: seq<Action>)
    requires t < |s.tasks| && s.tasks[t].Install? && s.tasks[t].ipc == StopVictim(victim) && victim in s.adapters
    ensures IsRun(s, actions) && IsPoliteRun(s, actions)
    ensures var s' := After(s, actions);
            && |s'.tasks| == |s.tasks| && (forall u :: 0 <= u < |s.tasks| && u != t ==> s'.tasks[u] == s.tasks[u])
            && victim in s'.adapters && s'.adapters[victim].state == Stopped
            && HasEvent(s', t, victim, s.adapters[victim].state, Stopped)
  {
    var next := Step(t, Success);
    Extend(s, [], next);
    Extend(s, [] + [next], next);
    actions := [] + [next] + [next];
    var before := Apply(s, next);
    assert IsMove(After(s, actions).history[|before.history|].fact, victim, s.adapters[victim].state, Stopped);
  }

  // A monitor learns that its container exited with code 0 and reports it.
  lemma MonitorReports(s: State, m: nat, id: string) returns (actions: seq<Action>)
    requires m < |s.tasks| && s.tasks[m] == Monitor(id, Waiting) && id in s.adapters
    ensures IsRun(s, actions) && IsPoliteRun(s, actions)
    ensures var s' := After(s, actions);
            && s'.tasks == s.tasks[m := Monitor(id, Reported)] && s'.clock == s.clock
            && s'.adapters == Transitioned(s.adapters, id, Stopped, None, s.clock)
            && HasEvent(s', m, id, s.adapters[id].state, Stopped)
  {
    var exit, report := Step(m, Exit(0)), Step(m, Success);
    Extend(s, [], exit);
    Extend(s, [] + [exit], report);
    actions := [] + [exit] + [report];
    var before, s' := Apply(s, exit), After(s, actions);
    assert IsMove(s'.history[|before.history|].fact, id, s.adapters[id].state, Stopped);
  }

  lemma PoliteJoin(s: State, first: seq<Action>, second: seq<Action>)
    requires IsRun(s, first) && IsPoliteRun(s, first) && IsRun(After(s, first), second)
             && IsPoliteRun(After(s, first), second)
    ensures IsRun(s, first + second) && IsPoliteRun(s, first + second)
    ensures After(s, first + second) == After(After(s, first), second)
  {
    RunConcat(s, first, second);
    PoliteConcat(s, first, second);
  }

  // A second install stops the running adapter, then that adapter's monitor reports its exit.
  lemma StoppedTwice(s: State, m: nat, image: string, victim: string) returns (actions: seq<Action>)
    requires image != "" && WellKeyed(s.adapters) && victim in s.adapters && s.adapters[victim].state == Running
    requires m < |s.tasks| && s.tasks[m] == Monitor(victim, Waiting) && !HasInstall(s.tasks, DeriveAdapterId(image))
    ensures IsRun(s, actions) && IsPoliteRun(s, actions) && HasEvent(After(s, actions), m, victim, Stopped, Stopped)
  {
    hide IsRun, IsPoliteRun, After, HasInstall, HasEvent, DeriveAdapterId;
    var first := VictimChosen(s, image, victim);
    var s1 := After(s, first);
    var second := VictimStopped(s1, |s.tasks|, victim);
    var s2 := After(s1, second);
    var third := MonitorReports(s2, m, victim);
    PoliteJoin(s1, second, third);
    PoliteJoin(s, first, second + third);
    actions := first + (second + third);
  }

  lemma OwnedInitially(actions: seq<Action>)
    requires IsRun(INITIAL, actions) && IsPoliteRun(INITIAL, actions)
    ensures Owned(After(INITIAL, actions)) && WellKeyed(After(INITIAL, actions).adapters)
    ensures forall id :: id in After(INITIAL, actions).adapters ==> HasInstall(After(INITIAL, actions).tasks, id)
  {
    OwnedAlways(INITIAL, actions);
  }

  // Even with distinct ids and no removals the documented table is not met: when a second
  // install stops the running adapter, that adapter's monitor still reports its exit.
  lemma StaleMonitorRun() returns (actions: seq<Action>)
    ensures IsRun(INITIAL, actions) && IsPoliteRun(INITIAL, actions)
    ensures HasEvent(After(INITIAL, actions), 1, "a", Stopped, Stopped) && (Stopped, Stopped) !in VALID_TRANSITIONS
  {
    hide IsRun, IsPoliteRun, After, HasEvent, Owned, DeriveAdapterId;
    PlainId("a");
    PlainId("b");
    var first := InstallToRunning(INITIAL, "a");
    var s0 := After(INITIAL, first);
    OwnedInitially(first);
    var second := StoppedTwice(s0, 1, "b", "a");
    PoliteJoin(INITIAL, first, second);
    actions := first + second;
  }

  // The monitor reports the exit of a running adapter that a second install is stopping.
  lemma StoppedByVictimStep(s: State, m: nat, image: string, victim: string) returns (actions: seq<Action>)
    requires image != "" && WellKeyed(s.adapters) && victim in s.adapters && s.adapters[victim].state == Running
    requires m < |s.tasks| && s.tasks[m] == Monitor(victim, Waiting) && !HasInstall(s.tasks, DeriveAdapterId(image))
    ensures IsRun(s, actions) && IsPoliteRun(s, actions)
            && HasEvent(After(s, actions), |s.tasks|, victim, Stopped, Stopped)
  {
    hide IsRun, IsPoliteRun, After, HasInstall, HasEvent, DeriveAdapterId;
    var first := VictimChosen(s, image, victim);
    var s1 := After(s, first);
    var second := MonitorReports(s1, m, victim);
    var s2 := After(s1, second);
    var third := VictimStopped(s2, |s.tasks|, victim);
    PoliteJoin(s1, second, third);
    PoliteJoin(s, first, second + third);
    actions := first + (second + third);
  }

  // An install's own step can leave the table as well: the adapter it stops may have exited
  // since it was found running.
  lemma StaleVictimRun() returns (actions: seq<Action>)
    ensures IsRun(INITIAL, actions) && IsPoliteRun(INITIAL, actions)
    ensures HasEvent(After(INITIAL, actions), 2, "a", Stopped, Stopped) && (Stopped, Stopped) !in VALID_TRANSITIONS
  {
    hide IsRun, IsPoliteRun, After, HasEvent, Owned, DeriveAdapterId;
    PlainId("a");
    PlainId("b");
    var first := InstallToRunning(INITIAL, "a");
    var s0 := After(INITIAL, first);
    OwnedInitially(first);
    var second := StoppedByVictimStep(s0, 1, "b", "a");
    PoliteJoin(INITIAL, first, second);
    actions := first + second;
  }

  // A removal that has found an adapter that is not running.
  lemma RemoveBegins(s: State, id: string) returns (actions: seq<Action>)
    requires id in s.adapters && s.adapters[id].state != Running
    requires forall u :: 0 <= u < |s.tasks| && s.tasks[u].Install? && InstallId(s.tasks[u]) == id ==>
             !InFlight(s.tasks[u].ipc)
    ensures IsRun(s, actions) && IsPoliteRun(s, actions)
    ensures var s' := After(s, actions);
            s'.tasks == s.tasks + [Remove(id, RemoveContainer(s.adapters[id]))] && s'.adapters == s.adapters
              && s'.clock == s.clock
  {
    var submit, next := SubmitRemove(id), Step(|s.tasks|, Success);
    Extend(s, [], submit);
    Extend(s, [] + [submit], next);
    actions := [] + [submit] + [next];
  }

  // Its container cannot be removed.
  lemma RemoveGivesUp(s: State, t: nat, id: string, e: AdapterEntry) returns (actions: seq<Action>)
    requires t < |s.tasks| && s.tasks[t] == Remove(id, RemoveContainer(e)) && id in s.adapters
    ensures IsRun(s, actions) && IsPoliteRun(s, actions)
    ensures var s' := After(s, actions);
            && |s'.tasks| == |s.tasks| && (forall u :: 0 <= u < |s.tasks| && u != t ==> s'.tasks[u] == s.tasks[u])
            && s'.adapters == Transitioned(s.adapters, id, Error, Some("busy"), s.clock)
            && HasEvent(s', t, id, s.adapters[id].state, Error)
  {
    var fail, next := Step(t, Failed("busy")), Step(t, Success);
    Extend(s, [], fail);
    Extend(s, [] + [fail], next);
    actions := [] + [fail] + [next];
    var before := Apply(s, fail);
    assert IsMove(After(s, actions).history[|before.history|].fact, id, s.adapters[id].state, Error);
  }

  lemma RemoveFails(s: State, id: string) returns (actions: seq<Action>)
    requires id in s.adapters && s.adapters[id].state != Running
    requires forall u :: 0 <= u < |s.tasks| && s.tasks[u].Install? && InstallId(s.tasks[u]) == id ==>
             !InFlight(s.tasks[u].ipc)
    ensures IsRun(s, actions) && IsPoliteRun(s, actions)
    ensures var s' := After(s, actions);
            && |s'.tasks| == |s.tasks| + 1 && (forall u :: 0 <= u < |s.tasks| ==> s'.tasks[u] == s.tasks[u])
            && s'.adapters == Transitioned(s.adapters, id, Error, Some("busy"), s.clock)
            && HasEvent(s', |s.tasks|, id, s.adapters[id].state, Error)
  {
    hide IsRun, IsPoliteRun, After, HasEvent;
    var first := RemoveBegins(s, id);
    var second := RemoveGivesUp(After(s, first), |s.tasks|, id, s.adapters[id]);
    PoliteJoin(s, first, second);
    actions := first + second;
  }

  // One adapter, installed, run and stopped.
  lemma OneStopped() returns (actions: seq<Action>)
    ensures IsRun(INITIAL, actions) && IsPoliteRun(INITIAL, actions)
    ensures var s := After(INITIAL, actions);
            && Owned(s) && s.adapters.Keys == {"a"} && IsCandidate(s.adapters["a"], 0, s.clock)
            && |s.tasks| == 2 && s.tasks[0].Install? && s.tasks[0].ipc == Returned && s.tasks[1].Monitor?
  {
    hide Owned, DeriveAdapterId;
    PlainId("a");
    var first := InstallToRunning(INITIAL, "a");
    var s0 := After(INITIAL, first);
    OwnedInitially(first);
    forall id | id in s0.adapters ensures id == "a" {
      assert HasInstall(s0.tasks, id);
    }
    hide IsRun, IsPoliteRun, After;
    var second := MonitorReports(s0, 1, "a");
    PoliteJoin(INITIAL, first, second);
    actions := first + second;
    OwnedInitially(actions);
  }

  // A removal that fails marks an adapter as failed that has already stopped.
  lemma RemoveStoppedRun() returns (actions: seq<Action>)
    ensures IsRun(INITIAL, actions) && IsPoliteRun(INITIAL, actions)
    ensures HasEvent(After(INITIAL, actions), 2, "a", Stopped, Error) && (Stopped, Error) !in VALID_TRANSITIONS
  {
    hide IsRun, IsPoliteRun, After, HasEvent;
    var first := OneStopped();
    var s0 := After(INITIAL, first);
    var second := RemoveFails(s0, "a");
    PoliteJoin(INITIAL, first, second);
    actions := first + second;
  }

  // An offload cycle lists the only adapter, which has been stopped.
  lemma OnlyAdapterListed(s: State, id: string) returns (actions: seq<Action>)
    requires WellKeyed(s.adapters) && s.adapters.Keys == {id} && IsCandidate(s.adapters[id], 0, s.clock)
    ensures IsRun(s, actions) && IsPoliteRun(s, actions)
    ensures var s' := After(s, actions);
            s'.adapters == s.adapters && s'.tasks == s.tasks + [Offload(0, MarkOffloading([s.adapters[id]]))]
  {
    var cycle, list := SubmitCycle(0), Step(|s.tasks|, Listed([s.adapters[id]]));
    Extend(s, [], cycle);
    Extend(s, [] + [cycle], list);
    actions := [] + [cycle] + [list];
  }

  lemma CycleMarks(s: State, t: nat, e: AdapterEntry) returns (actions: seq<Action>)
    requires t < |s.tasks| && s.tasks[t] == Offload(0, MarkOffloading([e])) && e.adapterId in s.adapters
    ensures IsRun(s, actions) && IsPoliteRun(s, actions)
            && HasEvent(After(s, actions), t, e.adapterId, s.adapters[e.adapterId].state, Offloading)
  {
    var mark := Step(t, Success);
    Extend(s, [], mark);
    actions := [] + [mark];
    assert IsMove(After(s, actions).history[|s.history|].fact, e.adapterId, s.adapters[e.adapterId].state, Offloading);
  }

  // An offload cycle marks an adapter that has failed since it was listed.
  lemma OffloadFailedRun() returns (actions: seq<Action>)
    ensures IsRun(INITIAL, actions) && IsPoliteRun(INITIAL, actions)
    ensures HasEvent(After(INITIAL, actions), 2, "a", Error, Offloading) && (Error, Offloading) !in VALID_TRANSITIONS
  {
    hide IsRun, IsPoliteRun, After, HasEvent;
    var first := OneStopped();
    var s0 := After(INITIAL, first);
    var second := OnlyAdapterListed(s0, "a");
    var s1 := After(s0, second);
    var third := RemoveFails(s1, "a");
    var s2 := After(s1, third);
    var fourth := CycleMarks(s2, 2, s0.adapters["a"]);
    PoliteJoin(s1, third, fourth);
    PoliteJoin(s0, second, third + fourth);
    PoliteJoin(INITIAL, first, second + (third + fourth));
    actions := first + (second + (third + fourth));
  }

  // Two tasks that install the same image.
  lemma TwoSubmitted() returns (actions: seq<Action>)
    ensures IsRun(INITIAL, actions)
    ensures After(INITIAL, actions).tasks
            == [Install("a", "x", "job", ChooseVictim), Install("a", "x", "job", ChooseVictim)]
    ensures After(INITIAL, actions).adapters == map[]
  {
    var submit := SubmitInstall("a", "x", "job");
    Extend(INITIAL, [], submit);
    Extend(INITIAL, [] + [submit], submit);
    actions := [] + [submit] + [submit];
  }

  // The first of them has begun to pull it.
  lemma FirstPulls(s: State) returns (actions: seq<Action>)
    requires s.tasks == [Install("a", "x", "job", ChooseVictim), Install("a", "x", "job", ChooseVictim)]
             && s.adapters == map[]
    ensures IsRun(s, actions)
    ensures var s' := After(s, actions);
            && s'.tasks == [Install("a", "x", "job", PullImage), Install("a", "x", "job", ChooseVictim)]
            && s'.adapters.Keys == {"a"} && s'.adapters["a"].state == Downloading
  {
    PlainId("a");
    var choose, next := Step(0, Found(None)), Step(0, Success);
    Extend(s, [], choose);
    Extend(s, [] + [choose], next);
    Extend(s, [] + [choose] + [next], next);
    actions := [] + [choose] + [next] + [next];
  }

  lemma SecondResets(s: State) returns (actions: seq<Action>)
    requires s.tasks == [Install("a", "x", "job", PullImage), Install("a", "x", "job", ChooseVictim)]
    requires s.adapters.Keys == {"a"} && s.adapters["a"].state == Downloading
    ensures IsRun(s, actions)
    ensures var s' := After(s, actions);
            |s'.tasks| == 2 && s'.tasks[0] == s.tasks[0] && "a" in s'.adapters && s'.adapters["a"].state == Unknown
  {
    PlainId("a");
    var choose, next := Step(1, Found(None)), Step(1, Success);
    Extend(s, [], choose);
    Extend(s, [] + [choose], next);
    actions := [] + [choose] + [next];
  }

  lemma FirstGoesOn(s: State) returns (actions: seq<Action>)
    requires |s.tasks| == 2 && s.tasks[0] == Install("a", "x", "job", PullImage) && "a" in s.adapters
             && s.adapters["a"].state == Unknown
    ensures IsRun(s, actions) && HasEvent(After(s, actions), 0, "a", Unknown, Installing)
  {
    PlainId("a");
    var next, inspect := Step(0, Success), Step(0, Digest("x"));
    Extend(s, [], next);
    Extend(s, [] + [next], inspect);
    var s2 := After(s, [] + [next] + [inspect]);
    assert s2.tasks[0] == Install("a", "x", "job", ToInstalling) && s2.adapters == s.adapters;
    Extend(s, [] + [next] + [inspect], next);
    actions := [] + [next] + [inspect] + [next];
    assert IsMove(After(s, actions).history[|s2.history|].fact, "a", Unknown, Installing);
  }

  // With a reused id an install's own event can leave the table: the second install resets
  // the entry while the first is pulling.
  lemma ReusedIdRun() returns (actions: seq<Action>)
    ensures IsRun(INITIAL, actions)
    ensures HasEvent(After(INITIAL, actions), 0, "a", Unknown, Installing)
            && (Unknown, Installing) !in VALID_TRANSITIONS
  {
    hide IsRun, After, HasEvent;
    var first := TwoSubmitted();
    var s1 := After(INITIAL, first);
    var second := FirstPulls(s1);
    var s2 := After(s1, second);
    var third := SecondResets(s2);
    var fourth := FirstGoesOn(After(s2, third));
    RunConcat(s2, third, fourth);
    RunConcat(s1, second, third + fourth);
    RunConcat(INITIAL, first, second + (third + fourth));
    actions := first + (second + (third + fourth));
  }

  // With a reused id an offload cycle can offload a running adapter: it does not look at
  // the state again between listing an adapter and marking it.
  lemma OffloadRunningRun() returns (actions: seq<Action>)
    ensures IsRun(INITIAL, actions)
    ensures HasEvent(After(INITIAL, actions), 2, "a", Running, Offloading)
  {
    hide IsRun, IsPoliteRun, After, HasEvent;
    var first := OneStopped();
    var s0 := After(INITIAL, first);
    var second := OnlyAdapterListed(s0, "a");
    var s1 := After(s0, second);
    PlainId("a");
    var third := InstallToRunning(s1, "a");
    var s2 := After(s1, third);
    var fourth := CycleMarks(s2, 2, s0.adapters["a"]);
    RunConcat(s1, third, fourth);
    RunConcat(s0, second, third + fourth);
    RunConcat(INITIAL, first, second + (third + fourth));
    actions := first + (second + (third + fourth));
  }
}
