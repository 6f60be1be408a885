/** What an install does when the digest of the pulled image is not the requested one. */
module ChecksumMismatch {
  import opened Wrappers
  import opened AdapterId
  import opened StateManager
  import opened AdapterTasks
  import opened AdapterHistory

  predicate IsMismatch(item: Item, t: nat, image: string, checksum: string) {
    && item.actor == t && item.fact.Called? && item.fact.call == Inspect(image)
    && item.fact.outcome.Digest? && item.fact.outcome.digest != checksum
  }

  ghost predicate Inspected(history: seq<Item>, t: nat, image: string, checksum: string) {
    exists k :: 0 <= k < |history| && IsMismatch(history[k], t, image, checksum)
  }

  ghost predicate NeverLaunched(history: seq<Item>, t: nat) {
    forall k :: 0 <= k < |history| && history[k].actor == t && history[k].fact.Called? ==> !history[k].fact.call.Launch?
  }

  predicate IsFailure(item: Item, t: nat, id: string) {
    item.actor == t && item.fact.Moved? && item.fact.id == id && item.fact.newState == Error
  }

  // The event that the adapter has failed, or a moment at which it was absent.
  ghost predicate FailedOrAbsent(history: seq<Item>, t: nat, id: string, k: nat) {
    || (exists m :: k < m < |history| && IsFailure(history[m], t, id))
    || (exists m :: k < m <= |history| && LoggedState(history[..m], id) == None)
  }

  // After its inspection the task has reported the failure of its adapter.
  ghost predicate Reported(history: seq<Item>, t: nat, image: string, checksum: string, id: string) {
    exists k :: 0 <= k < |history| && IsMismatch(history[k], t, image, checksum) && FailedOrAbsent(history, t, id, k)
  }

  // After that it has tried to remove the image.
  ghost predicate Cleaned(history: seq<Item>, t: nat, image: string, checksum: string, id: string) {
    exists r :: 0 <= r < |history| && history[r].actor == t && history[r].fact.Called?
      && history[r].fact.call == Rmi(image)
      && Reported(history[..r], t, image, checksum, id)
  }

  // What the log says about an install at a given point.
  ghost predicate Checked(task: Task, t: nat, history: seq<Item>) {
    task.Install? ==>
      var id, image, checksum, pc := InstallId(task), task.image, task.checksum, task.ipc;
      if pc.Mismatch? then Inspected(history, t, image, checksum) && NeverLaunched(history, t)
      else if pc.DropImage? then Reported(history, t, image, checksum, id) && NeverLaunched(history, t)
      else if pc.Returned? then
        Inspected(history, t, image, checksum) ==> Cleaned(history, t, image, checksum, id) && NeverLaunched(history, t)
      else if pc.LaunchFailed? || pc.ToRunning? then !Inspected(history, t, image, checksum)
      else !Inspected(history, t, image, checksum) && NeverLaunched(history, t)
  }

  ghost predicate AllChecked(s: State) {
    && (forall k :: 0 <= k < |s.history| ==> s.history[k].actor < |s.tasks|)
    && (forall t :: 0 <= t < |s.tasks| ==> Checked(s.tasks[t], t, s.history))
  }

  // -------- one more log item --------

  lemma InspectedAppend(history: seq<Item>, item: Item, t: nat, image: string, checksum: string)
    ensures Inspected(history + [item], t, image, checksum) <==>
            Inspected(history, t, image, checksum) || IsMismatch(item, t, image, checksum)
  {
    var longer := history + [item];
    assert longer[|history|] == item && forall k :: 0 <= k < |history| ==> longer[k] == history[k];
  }

  lemma NeverLaunchedAppend(history: seq<Item>, item: Item, t: nat)
    ensures NeverLaunched(history + [item], t) <==>
            NeverLaunched(history, t) && (item.actor == t && item.fact.Called? ==> !item.fact.call.Launch?)
  {
    var longer := history + [item];
    assert longer[|history|] == item && forall k :: 0 <= k < |history| ==> longer[k] == history[k];
  }

  lemma ReportedGrows(history: seq<Item>, item: Item, t: nat, image: string, checksum: string, id: string)
    requires Reported(history, t, image, checksum, id)
    ensures Reported(history + [item], t, image, checksum, id)
  {
    var longer := history + [item];
    var k :| 0 <= k < |history| && IsMismatch(history[k], t, image, checksum) && FailedOrAbsent(history, t, id, k);
    assert longer[k] == history[k];
    if m :| k < m < |history| && IsFailure(history[m], t, id) {
      assert IsFailure(longer[m], t, id);
    } else {
      var m :| k < m <= |history| && LoggedState(history[..m], id) == None;
      assert longer[..m] == history[..m];
    }
    assert FailedOrAbsent(longer, t, id, k);
  }

  lemma CleanedGrows(history: seq<Item>, item: Item, t: nat, image: string, checksum: string, id: string)
    requires Cleaned(history, t, image, checksum, id)
    ensures Cleaned(history + [item], t, image, checksum, id)
  {
    var longer := history + [item];
    var r :| 0 <= r < |history| && history[r].actor == t && history[r].fact.Called?
      && history[r].fact.call == Rmi(image)
      && Reported(history[..r], t, image, checksum, id);
    assert longer[r] == history[r] && longer[..r] == history[..r];
  }

  lemma OtherItem(task: Task, t: nat, history: seq<Item>, item: Item)
    requires Checked(task, t, history) && item.actor != t
    ensures Checked(task, t, history + [item])
  {
    if task.Install? {
      var id, image, checksum := InstallId(task), task.image, task.checksum;
      hide Inspected, NeverLaunched, Reported, Cleaned;
      InspectedAppend(history, item, t, image, checksum);
      NeverLaunchedAppend(history, item, t);
      if Reported(history, t, image, checksum, id) {
        ReportedGrows(history, item, t, image, checksum, id);
      }
      if Cleaned(history, t, image, checksum, id) {
        CleanedGrows(history, item, t, image, checksum, id);
      }
    }
  }

  // -------- the install's own steps --------

  // The failure is reported: either the adapter is there and the event is logged, or not.
  lemma FailureReported(s: State, t: nat, image: string, checksum: string, id: string)
    requires LogRefinesMap(s) && Inspected(s.history, t, image, checksum)
    ensures Reported(HistoryAfter(s, t, Move(id, Error, Some("checksum_mismatch"))), t, image, checksum, id)
  {
    var history := HistoryAfter(s, t, Move(id, Error, Some("checksum_mismatch")));
    var k :| 0 <= k < |s.history| && IsMismatch(s.history[k], t, image, checksum);
    assert history[k] == s.history[k];
    if id in s.adapters {
      assert IsFailure(history[|s.history|], t, id);
    } else {
      assert CurrentState(s.adapters, id) == None;
      assert history[..|s.history|] == s.history;
    }
    assert FailedOrAbsent(history, t, id, k);
  }

  lemma ImageCleaned(history: seq<Item>, item: Item, t: nat, image: string, checksum: string, id: string)
    requires Reported(history, t, image, checksum, id)
    requires item.actor == t && item.fact.Called? && item.fact.call == Rmi(image)
    ensures Cleaned(history + [item], t, image, checksum, id)
  {
    var longer := history + [item];
    assert longer[..|history|] == history && longer[|history|] == item;
  }

  // What an install step does, as far as the log is concerned.
  lemma StepLogs(task: Task, adapters: Adapters, o: Outcome, now: nat)
    requires task.Install? && CanStep(task, adapters, o, now)
    ensures var step, pc := StepTask(task, adapters, o, now), task.ipc;
            && step.next.Install? && step.next.image == task.image && step.next.checksum == task.checksum
            && (pc.Mismatch? ==>
              step.effect == Move(InstallId(task), Error, Some("checksum_mismatch")) && step.next.ipc == DropImage)
            && (pc.DropImage? ==> step.effect == Ask(Rmi(task.image), o) && step.next.ipc == Returned)
            && (pc.InspectDigest? ==>
                  && step.effect == Ask(Inspect(task.image), o)
                  && (o.Digest? && o.digest != task.checksum ==> step.next.ipc == Mismatch)
                  && (step.next.ipc.Mismatch? ==> o.Digest? && o.digest != task.checksum)
                  && (step.next.ipc.Mismatch? || step.next.ipc.ToInstalling? || step.next.ipc.DownloadFailed?))
            && (step.effect.Ask? && step.effect.call.Launch? ==>
                  pc.LaunchContainer? && (step.next.ipc.ToRunning? || step.next.ipc.LaunchFailed?))
            && (!pc.InspectDigest? ==> !(step.effect.Ask? && step.effect.call.Inspect?) && !step.next.ipc.Mismatch?)
            && (!pc.Mismatch? ==> !step.next.ipc.DropImage?)
            && (pc.LaunchFailed? || pc.ToRunning? ==> step.next.ipc == Returned)
  {
  }

  lemma KindKept(task: Task, adapters: Adapters, o: Outcome, now: nat)
    requires !task.Install? && CanStep(task, adapters, o, now)
    ensures !StepTask(task, adapters, o, now).next.Install?
  {
  }

  lemma OwnChecked(s: State, t: nat, o: Outcome)
    requires LogRefinesMap(s) && t < |s.tasks| && CanStep(s.tasks[t], s.adapters, o, s.clock)
             && Checked(s.tasks[t], t, s.history)
    ensures var step := StepTask(s.tasks[t], s.adapters, o, s.clock);
            Checked(step.next, t, HistoryAfter(s, t, step.effect))
  {
    var task := s.tasks[t];
    if task.Install? {
      StepLogs(task, s.adapters, o, s.clock);
      var step := StepTask(task, s.adapters, o, s.clock);
      var id, image, checksum := InstallId(task), task.image, task.checksum;
      if task.ipc.Mismatch? {
        FailureReported(s, t, image, checksum, id);
      } else if task.ipc.DropImage? {
        ImageCleaned(s.history, Item(t, s.clock, Called(Rmi(image), o)), t, image, checksum, id);
      }
      hide StepTask, CanStep, Inspected, NeverLaunched, Reported, Cleaned, LogRefinesMap;
      var item := Item(t, s.clock, FactOf(s.adapters, step.effect));
      InspectedAppend(s.history, item, t, image, checksum);
      NeverLaunchedAppend(s.history, item, t);
    } else {
      KindKept(task, s.adapters, o, s.clock);
    }
  }

  // -------- every run --------

  lemma NewTaskChecked(task: Task, t: nat, history: seq<Item>)
    requires task.Install? ==> task.ipc == ChooseVictim
    requires forall k :: 0 <= k < |history| ==> history[k].actor != t
    ensures Checked(task, t, history)
  {
  }

  lemma SpawnsMonitors(task: Task, adapters: Adapters, o: Outcome, now: nat)
    requires CanStep(task, adapters, o, now)
    ensures forall u :: 0 <= u < |StepTask(task, adapters, o, now).spawned| ==>
            StepTask(task, adapters, o, now).spawned[u].Monitor?
  {
  }

  lemma AllCheckedStep(s: State, t: nat, o: Outcome)
    requires LogRefinesMap(s) && AllChecked(s) && t < |s.tasks| && CanStep(s.tasks[t], s.adapters, o, s.clock)
    ensures AllChecked(Apply(s, Step(t, o)))
  {
    var step, s' := StepTask(s.tasks[t], s.adapters, o, s.clock), Apply(s, Step(t, o));
    OwnChecked(s, t, o);
    SpawnsMonitors(s.tasks[t], s.adapters, o, s.clock);
    hide StepTask, CanStep, Checked, LogRefinesMap;
    var item := Item(t, s.clock, FactOf(s.adapters, step.effect));
    assert forall k :: 0 <= k < |s'.history| ==> s'.history[k].actor < |s.tasks|;
    forall u | 0 <= u < |s'.tasks| ensures Checked(s'.tasks[u], u, s'.history) {
      if u >= |s.tasks| {
        NewTaskChecked(s'.tasks[u], u, s'.history);
      } else if u != t {
        OtherItem(s.tasks[u], u, s.history, item);
      }
    }
  }

  lemma AllCheckedSubmit(s: State, a: Action)
    requires AllChecked(s) && !a.Step?
    ensures AllChecked(Apply(s, a))
  {
    hide Checked;
    var s' := Apply(s, a);
    forall u | 0 <= u < |s'.tasks| ensures Checked(s'.tasks[u], u, s'.history) {
      if u >= |s.tasks| {
        NewTaskChecked(s'.tasks[u], u, s'.history);
      }
    }
  }

  lemma {:induction false} AllCheckedAlways(s: State, actions: seq<Action>)
    requires LogRefinesMap(s) && AllChecked(s) && IsRun(s, actions)
    ensures AllChecked(After(s, actions))
    decreases |actions|
  {
    if actions == [] {
    } else {
      var a := actions[0];
      if a.Step? {
        AllCheckedStep(s, a.task, a.outcome);
        LogKept(s, a.task, StepTask(s.tasks[a.task], s.adapters, a.outcome, s.clock).effect);
      } else {
        AllCheckedSubmit(s, a);
      }
      hide AllChecked, StepTask;
      AllCheckedAlways(Apply(s, a), actions[1..]);
    }
  }

  // In every run, an install whose inspection returned another digest never launches a
  // container; once it has returned, it has after the inspection reported the failure of its
  // adapter, unless the adapter was absent, and then tried to remove the image.
  lemma MismatchHandled(actions: seq<Action>, t: nat)
    requires IsRun(INITIAL, actions)
    requires var s := After(INITIAL, actions);
             t < |s.tasks| && s.tasks[t].Install? && Inspected(s.history, t, s.tasks[t].image, s.tasks[t].checksum)
    ensures var s := After(INITIAL, actions); var task := s.tasks[t];
            && NeverLaunched(s.history, t)
            && (task.ipc == Returned ==> Cleaned(s.history, t, task.image, task.checksum, InstallId(task)))
  {
    AllCheckedAlways(INITIAL, actions);
    var s := After(INITIAL, actions);
    assert Checked(s.tasks[t], t, s.history);
  }
}
