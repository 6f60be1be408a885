/** Which containers are watched, and what the report of a failed one says. */
module AdapterWatch {
  import opened Wrappers
  import opened AdapterId
  import opened StateManager
  import opened AdapterTasks
  import opened AdapterHistory
  import opened Transcripts

  ghost predicate HasLaunched(history: seq<Item>, id: string) {
    exists k :: 0 <= k < |history| && history[k].fact.Called? && history[k].fact.call.Launch?
                && history[k].fact.call.id == id && history[k].fact.outcome == Success
  }

  ghost predicate IsWatched(tasks: seq<Task>, id: string) {
    exists u :: 0 <= u < |tasks| && tasks[u].Monitor? && tasks[u].id == id
  }

  // The last fact of the install is its transition to Running.
  ghost predicate HasRun(task: Task, facts: seq<Fact>) {
    && task.Install? && task.ipc == Returned && facts != []
    && IsTransition(facts[|facts| - 1], InstallId(task), Running, None)
  }

  // Every monitor watches a container that has been launched, and every install that has got
  // its adapter running has left a monitor.
  ghost predicate Watches(s: State) {
    && (forall u :: 0 <= u < |s.tasks| && s.tasks[u].Monitor? ==> HasLaunched(s.history, s.tasks[u].id))
    && (forall t :: 0 <= t < |s.tasks| && HasRun(s.tasks[t], OwnFacts(s.history, t)) ==>
          IsWatched(s.tasks, InstallId(s.tasks[t])))
  }

  lemma LaunchedGrows(history: seq<Item>, item: Item, id: string)
    requires HasLaunched(history, id)
    ensures HasLaunched(history + [item], id)
  {
    var k :| 0 <= k < |history| && history[k].fact.Called? && history[k].fact.call.Launch?
             && history[k].fact.call.id == id && history[k].fact.outcome == Success;
    assert (history + [item])[k] == history[k];
  }

  lemma {:induction false} OwnFactInLog(history: seq<Item>, t: nat, fact: Fact)
    requires fact in OwnFacts(history, t)
    ensures exists k :: 0 <= k < |history| && history[k].fact == fact
  {
    var init := history[..|history| - 1];
    if fact in OwnFacts(init, t) {
      OwnFactInLog(init, t, fact);
      var k :| 0 <= k < |init| && init[k].fact == fact;
      assert history[k].fact == fact;
    } else {
      assert history[|history| - 1].fact == fact;
    }
  }

  // A monitor is spawned by an install that has launched its container, and by its last step.
  lemma SpawnsOwnMonitor(task: Task, adapters: Adapters, o: Outcome, now: nat)
    requires CanStep(task, adapters, o, now)
    ensures var step := StepTask(task, adapters, o, now);
            && (step.spawned != [] ==>
                  task.Install? && task.ipc == ToRunning && step.spawned == [Monitor(InstallId(task), Waiting)])
            && (step.next.Monitor? == task.Monitor? && (task.Monitor? ==> step.next.id == task.id))
            && (step.next.Install? == task.Install? && (task.Install? ==> InstallId(step.next) == InstallId(task)))
            && (task.Install? && step.next.ipc == Returned && step.spawned == [] ==>
                  !IsTransition(FactOf(adapters, step.effect), InstallId(task), Running, None))
  {
  }

  lemma LaunchedBefore(s: State, t: nat)
    requires AllTold(s) && t < |s.tasks| && s.tasks[t].Install? && s.tasks[t].ipc == ToRunning
    ensures HasLaunched(s.history, InstallId(s.tasks[t]))
  {
    var task, facts := s.tasks[t], OwnFacts(s.history, t);
    assert Told(task, facts);
    var launched := Called(Launch(InstallId(task), task.image), Success);
    assert facts[ClearingLength(facts) + 5] == launched;
    OwnFactInLog(s.history, t, launched);
  }

  lemma WatchedKept(tasks: seq<Task>, t: nat, next: Task, spawned: seq<Task>, id: string)
    requires t < |tasks| && IsWatched(tasks, id)
    requires next.Monitor? == tasks[t].Monitor? && (next.Monitor? ==> next.id == tasks[t].id)
    ensures IsWatched(tasks[t := next] + spawned, id)
  {
    var u :| 0 <= u < |tasks| && tasks[u].Monitor? && tasks[u].id == id;
    assert (tasks[t := next] + spawned)[u].Monitor? && (tasks[t := next] + spawned)[u].id == id;
  }

  lemma WatchesStep(s: State, t: nat, o: Outcome)
    requires AllTold(s) && Watches(s) && t < |s.tasks| && CanStep(s.tasks[t], s.adapters, o, s.clock)
    ensures Watches(Apply(s, Step(t, o)))
  {
    var step, s' := StepTask(s.tasks[t], s.adapters, o, s.clock), Apply(s, Step(t, o));
    var item := Item(t, s.clock, FactOf(s.adapters, step.effect));
    SpawnsOwnMonitor(s.tasks[t], s.adapters, o, s.clock);
    if step.spawned != [] {
      LaunchedBefore(s, t);
    }
    assert s'.history == s.history + [item] && s'.tasks == s.tasks[t := step.next] + step.spawned;
    assert forall k :: 0 <= k < |s.history| ==> s.history[k].actor < |s.tasks|;
    hide StepTask, CanStep, Apply, AllTold, HasLaunched, OwnFacts, FactOf, IsTransition;
    forall u | 0 <= u < |s'.tasks| && s'.tasks[u].Monitor? ensures HasLaunched(s'.history, s'.tasks[u].id) {
      LaunchedGrows(s.history, item, s'.tasks[u].id);
    }
    forall u | 0 <= u < |s'.tasks| && HasRun(s'.tasks[u], OwnFacts(s'.history, u))
      ensures IsWatched(s'.tasks, InstallId(s'.tasks[u]))
    {
      OwnFactsAppend(s.history, item, u);
      if u == t {
        assert s'.tasks[|s.tasks|] == Monitor(InstallId(s.tasks[t]), Waiting);
      } else {
        WatchedKept(s.tasks, t, step.next, step.spawned, InstallId(s.tasks[u]));
      }
    }
  }

  lemma WatchesSubmit(s: State, a: Action)
    requires AllTold(s) && Watches(s) && !a.Step?
    ensures Watches(Apply(s, a))
  {
    hide HasLaunched, OwnFacts;
    var s' := Apply(s, a);
    forall t | 0 <= t < |s'.tasks| && HasRun(s'.tasks[t], OwnFacts(s'.history, t))
      ensures IsWatched(s'.tasks, InstallId(s'.tasks[t]))
    {
      var u :| 0 <= u < |s.tasks| && s.tasks[u].Monitor? && s.tasks[u].id == InstallId(s.tasks[t]);
      assert s'.tasks[u] == s.tasks[u];
    }
  }

  lemma {:induction false} WatchesAlways(s: State, actions: seq<Action>)
    requires LogRefinesMap(s) && AllTold(s) && Watches(s) && IsRun(s, actions)
    ensures Watches(After(s, actions))
    decreases |actions|
  {
    if actions == [] {
    } else {
      var a := actions[0];
      if a.Step? {
        WatchesStep(s, a.task, a.outcome);
        AllToldStep(s, a.task, a.outcome);
        LogKept(s, a.task, StepTask(s.tasks[a.task], s.adapters, a.outcome, s.clock).effect);
      } else {
        WatchesSubmit(s, a);
        AllToldSubmit(s, a);
      }
      hide AllTold, Watches, LogRefinesMap, StepTask;
      WatchesAlways(Apply(s, a), actions[1..]);
    }
  }

  // In every run exactly the containers that were launched and got running are watched.
  lemma ContainersAreWatched(actions: seq<Action>)
    requires IsRun(INITIAL, actions)
    ensures Watches(After(INITIAL, actions))
  {
    WatchesAlways(INITIAL, actions);
  }

  // -------- exit codes in messages --------

  // The number that a string of digits stands for.
  function ValueOf(s: string): int {
    if s == "" then 0 else 10 * ValueOf(s[..|s| - 1]) + (s[|s| - 1] as int - '0' as int)
  }

  predicate Reads(digits: string, n: nat) {
    && digits != "" && ValueOf(digits) == n && (forall i :: 0 <= i < |digits| ==> '0' <= digits[i] <= '9')
    && (n > 0 ==> digits[0] != '0')
  }

  lemma OneMoreDigit(s: string, n: nat, digit: nat)
    requires digit < 10 && if n == 0 then s == "" else Reads(s, n)
    ensures Reads(s + ["0123456789"[digit]], 10 * n + digit)
  {
    var longer := s + ["0123456789"[digit]];
    assert longer[..|longer| - 1] == s;
  }

  lemma {:induction false} DigitsRead(n: nat)
    ensures Reads(Decimal(n), n)
    decreases n
  {
    hide Reads;
    if n >= 10 {
      DigitsRead(n / 10);
      OneMoreDigit(Decimal(n / 10), n / 10, n % 10);
    } else {
      OneMoreDigit("", 0, n);
      assert Decimal(n) == "" + ["0123456789"[n]];
    }
  }

  // The message of a failed container names its exit code: digits without a leading zero,
  // after a minus sign exactly if it is negative.
  lemma DecimalReads(n: int)
    ensures var s := Decimal(n);
            && s != "" && (s[0] == '-' <==> n < 0)
            && if n < 0 then Reads(s[1..], -n) else Reads(s, n)
  {
    var size: nat := if n < 0 then -n else n;
    DigitsRead(size);
    assert Decimal(size)[0] != '-';
    if n < 0 {
      assert Decimal(n)[1..] == Decimal(size);
    }
  }
}
