/**
 What every interleaving of the update service's tasks keeps, with no condition on the
 schedule: the event log determines the adapter map, containers are launched only after a
 matching digest, adapters are forgotten only after their container and image are removed,
 and offloading respects the inactivity timeout.
 */
module AdapterHistory {
  import opened Wrappers
  import opened AdapterId
  import opened StateManager
  import opened AdapterTasks

  // -------- the event log refines the map --------

  // The state an adapter has according to the log: none before it is created or after it
  // is removed.
  function LoggedState(history: seq<Item>, id: string): Option<AdapterState> {
    if history == [] then None
    else
      var earlier := LoggedState(history[..|history| - 1], id);
      match history[|history| - 1].fact
      case Created(e) => if e.adapterId == id then Some(e.state) else earlier
      case Moved(i, _, newState, _) => if i == id then Some(newState) else earlier
      case Dropped(i) => if i == id then None else earlier
      case _ => earlier
  }

  // Every event leaves the state that the previous event or the creation entered, and none
  // is about an absent adapter.
  ghost predicate Chained(history: seq<Item>) {
    forall k :: 0 <= k < |history| && history[k].fact.Moved? ==>
      LoggedState(history[..k], history[k].fact.id) == Some(history[k].fact.oldState)
  }

  function CurrentState(adapters: Adapters, id: string): Option<AdapterState> {
    if id in adapters then Some(adapters[id].state) else None
  }

  ghost predicate LogRefinesMap(s: State) {
    && WellKeyed(s.adapters)
    && Chained(s.history)
    && forall id: string :: LoggedState(s.history, id) == CurrentState(s.adapters, id)
  }

  lemma LogKept(s: State, actor: nat, effect: Effect)
    requires LogRefinesMap(s)
    ensures LogRefinesMap(State(AdaptersAfter(s.adapters, effect, s.clock), s.tasks, HistoryAfter(s, actor, effect),
            s.clock))
  {
    var history := HistoryAfter(s, actor, effect);
    if history != s.history {
      assert history[..|s.history|] == s.history;
      forall k | 0 <= k < |history| && history[k].fact.Moved?
        ensures LoggedState(history[..k], history[k].fact.id) == Some(history[k].fact.oldState)
      {
        if k < |s.history| {
          assert history[..k] == s.history[..k] && history[k] == s.history[k];
        }
      }
    }
  }

  // In every run from the initial state the log is chained and determines, for every
  // adapter id, whether it is present and in which state.
  lemma {:induction false} LogRefinesMapAlways(s: State, actions: seq<Action>)
    requires LogRefinesMap(s) && IsRun(s, actions)
    ensures LogRefinesMap(After(s, actions))
    decreases |actions|
  {
    if actions == [] {
    } else {
      var a := actions[0];
      if a.Step? {
        var step := StepTask(s.tasks[a.task], s.adapters, a.outcome, s.clock);
        LogKept(s, a.task, step.effect);
      }
      LogRefinesMapAlways(Apply(s, a), actions[1..]);
    }
  }

  // -------- effects are gated --------

  // Some earlier item of the log is this task's inspection of its image with the digest.
  ghost predicate Verified(history: seq<Item>, actor: nat, image: string, digest: string) {
    exists j :: 0 <= j < |history| && history[j].actor == actor
      && history[j].fact == Called(Inspect(image), Digest(digest))
  }

  // This task has read an entry and then removed the container filed under the id.
  ghost predicate ContainerRemoved(history: seq<Item>, actor: nat, entry: AdapterEntry) {
    exists i, j :: 0 <= i < j < |history| && history[i].actor == actor && history[j].actor == actor
      && history[i].fact.Saw? && entry in history[i].fact.entries
      && history[j].fact == Called(Rm(entry.adapterId), Success)
  }

  // ... and after that the image of the entry it read.
  ghost predicate ImageRemoved(history: seq<Item>, actor: nat, entry: AdapterEntry) {
    exists k :: 0 <= k < |history| && history[k].actor == actor
      && history[k].fact == Called(Rmi(entry.imageRef), Success)
      && ContainerRemoved(history[..k], actor, entry)
  }

  ghost predicate HasSeen(history: seq<Item>, actor: nat, entry: AdapterEntry) {
    exists i :: 0 <= i < |history| && history[i].actor == actor && history[i].fact.Saw?
      && entry in history[i].fact.entries
  }

  // What a task has already done when its program counter has reached a given point.
  ghost predicate Earned(task: Task, t: nat, history: seq<Item>) {
    match task
    case Install(image, checksum, _, pc) =>
      pc.ToInstalling? || pc.LaunchContainer? ==> Verified(history, t, image, checksum)
    case Monitor(_, _) => true
    case Remove(id, pc) =>
      (match pc
       case StopContainer(e) => e.adapterId == id && HasSeen(history, t, e)
       case RemoveContainer(e) => e.adapterId == id && HasSeen(history, t, e)
       case RemoveImage(e) => e.adapterId == id && ContainerRemoved(history, t, e)
       case Forget(e) => e.adapterId == id && ImageRemoved(history, t, e)
       case _ => true)
    case Offload(_, pc) =>
      (match pc
       case Snapshot => true
       case MarkOffloading(q) => forall e :: e in q ==> HasSeen(history, t, e)
       case OffloadContainer(q) => q != [] && forall e :: e in q ==> HasSeen(history, t, e)
       case OffloadImage(q) => q != [] && ContainerRemoved(history, t, q[0]) && forall e :: e in q ==>
         HasSeen(history, t, e)
       case OffloadForget(q) => q != [] && ImageRemoved(history, t, q[0]) && forall e :: e in q ==>
         HasSeen(history, t, e)
       case OffloadFailed(q, _) => q != [] && forall e :: e in q ==> HasSeen(history, t, e))
  }

  // The log entry at position k was allowed by what its actor had done before.
  ghost predicate Allowed(tasks: seq<Task>, history: seq<Item>, k: nat)
    requires k < |history|
  {
    var t := history[k].actor;
    t < |tasks| &&
    match history[k].fact
    case Called(Launch(id, image), _) =>
      tasks[t].Install? && image == tasks[t].image && id == InstallId(tasks[t])
        && Verified(history[..k], t, image, tasks[t].checksum)
    case Dropped(id) => exists e: AdapterEntry :: e.adapterId == id && ImageRemoved(history[..k], t, e)
    case Saw(entries) => forall e :: e in entries ==> LoggedState(history[..k], e.adapterId) == Some(e.state)
    case _ => true
  }

  ghost predicate Gated(s: State) {
    && LogRefinesMap(s)
    && (forall t :: 0 <= t < |s.tasks| ==> Earned(s.tasks[t], t, s.history))
    && (forall k :: 0 <= k < |s.history| ==> Allowed(s.tasks, s.history, k))
  }

  lemma ContainerRemovedGrows(history: seq<Item>, item: Item, actor: nat, entry: AdapterEntry)
    requires ContainerRemoved(history, actor, entry)
    ensures ContainerRemoved(history + [item], actor, entry)
  {
    var i, j :| 0 <= i < j < |history| && history[i].actor == actor && history[j].actor == actor
      && history[i].fact.Saw? && entry in history[i].fact.entries
      && history[j].fact == Called(Rm(entry.adapterId), Success);
    var longer := history + [item];
    assert longer[i] == history[i] && longer[j] == history[j];
  }

  lemma ImageRemovedGrows(history: seq<Item>, item: Item, actor: nat, entry: AdapterEntry)
    requires ImageRemoved(history, actor, entry)
    ensures ImageRemoved(history + [item], actor, entry)
  {
    var k :| 0 <= k < |history| && history[k].actor == actor && history[k].fact == Called(Rmi(entry.imageRef), Success)
      && ContainerRemoved(history[..k], actor, entry);
    var longer := history + [item];
    assert longer[k] == history[k] && longer[..k] == history[..k];
  }

  lemma HasSeenGrows(history: seq<Item>, item: Item, actor: nat, entry: AdapterEntry)
    requires HasSeen(history, actor, entry)
    ensures HasSeen(history + [item], actor, entry)
  {
    var i :| 0 <= i < |history| && history[i].actor == actor && history[i].fact.Saw?
      && entry in history[i].fact.entries;
    assert (history + [item])[i] == history[i];
  }

  lemma VerifiedGrows(history: seq<Item>, item: Item, actor: nat, image: string, digest: string)
    requires Verified(history, actor, image, digest)
    ensures Verified(history + [item], actor, image, digest)
  {
    var j :| 0 <= j < |history| && history[j].actor == actor
      && history[j].fact == Called(Inspect(image), Digest(digest));
    assert (history + [item])[j] == history[j];
  }

  lemma AllSeenGrow(history: seq<Item>, item: Item, actor: nat, queue: seq<AdapterEntry>)
    requires forall e :: e in queue ==> HasSeen(history, actor, e)
    ensures forall e :: e in queue ==> HasSeen(history + [item], actor, e)
  {
    forall e | e in queue ensures HasSeen(history + [item], actor, e) {
      HasSeenGrows(history, item, actor, e);
    }
  }

  lemma EarnedGrows(task: Task, t: nat, history: seq<Item>, item: Item)
    requires Earned(task, t, history)
    ensures Earned(task, t, history + [item])
  {
    match task
    case Install(image, checksum, _, pc) =>
      if Verified(history, t, image, checksum) {
        VerifiedGrows(history, item, t, image, checksum);
      }
    case Monitor(_, _) =>
    case Remove(id, pc) => {
      match pc
      case StopContainer(e) => HasSeenGrows(history, item, t, e);
      case RemoveContainer(e) => HasSeenGrows(history, item, t, e);
      case RemoveImage(e) => ContainerRemovedGrows(history, item, t, e);
      case Forget(e) => ImageRemovedGrows(history, item, t, e);
      case _ =>
    }
    case Offload(_, pc) => {
      match pc
      case Snapshot =>
      case MarkOffloading(q) => AllSeenGrow(history, item, t, q);
      case OffloadContainer(q) => AllSeenGrow(history, item, t, q);
      case OffloadImage(q) => AllSeenGrow(history, item, t, q); ContainerRemovedGrows(history, item, t, q[0]);
      case OffloadForget(q) => AllSeenGrow(history, item, t, q); ImageRemovedGrows(history, item, t, q[0]);
      case OffloadFailed(q, _) => AllSeenGrow(history, item, t, q);
    }
  }

  // A successful removal of a container or an image earns the next program counter.
  lemma ContainerEarned(history: seq<Item>, t: nat, now: nat, entry: AdapterEntry)
    requires HasSeen(history, t, entry)
    ensures ContainerRemoved(history + [Item(t, now, Called(Rm(entry.adapterId), Success))], t, entry)
  {
    var longer := history + [Item(t, now, Called(Rm(entry.adapterId), Success))];
    var i :| 0 <= i < |history| && history[i].actor == t && history[i].fact.Saw? && entry in history[i].fact.entries;
    assert longer[i] == history[i] && longer[|history|].actor == t;
  }

  lemma ImageEarned(history: seq<Item>, t: nat, now: nat, entry: AdapterEntry)
    requires ContainerRemoved(history, t, entry)
    ensures ImageRemoved(history + [Item(t, now, Called(Rmi(entry.imageRef), Success))], t, entry)
  {
    var longer := history + [Item(t, now, Called(Rmi(entry.imageRef), Success))];
    assert longer[..|history|] == history && longer[|history|].actor == t;
  }

  lemma SeenEarned(history: seq<Item>, t: nat, now: nat, entries: seq<AdapterEntry>)
    ensures forall e :: e in entries ==> HasSeen(history + [Item(t, now, Saw(entries))], t, e)
  {
    assert (history + [Item(t, now, Saw(entries))])[|history|] == Item(t, now, Saw(entries));
  }

  lemma InstallEarns(s: State, t: nat, o: Outcome)
    requires t < |s.tasks| && s.tasks[t].Install? && CanStep(s.tasks[t], s.adapters, o, s.clock)
             && Earned(s.tasks[t], t, s.history)
    ensures var step := StepTask(s.tasks[t], s.adapters, o, s.clock);
            Earned(step.next, t, HistoryAfter(s, t, step.effect))
  {
    var task := s.tasks[t];
    var step := StepTask(task, s.adapters, o, s.clock);
    var history := HistoryAfter(s, t, step.effect);
    if task.ipc.InspectDigest? {
      assert history[|s.history|] == Item(t, s.clock, Called(Inspect(task.image), o));
    } else if task.ipc.ToInstalling? && history != s.history {
      VerifiedGrows(s.history, history[|s.history|], t, task.image, task.checksum);
    }
  }

  lemma RemoveEarns(s: State, t: nat, o: Outcome)
    requires WellKeyed(s.adapters)
    requires t < |s.tasks| && s.tasks[t].Remove? && CanStep(s.tasks[t], s.adapters, o, s.clock)
             && Earned(s.tasks[t], t, s.history)
    ensures var step := StepTask(s.tasks[t], s.adapters, o, s.clock);
            Earned(step.next, t, HistoryAfter(s, t, step.effect))
  {
    var task := s.tasks[t];
    match task.rpc
    case Lookup =>
      if task.id in s.adapters {
        SeenEarned(s.history, t, s.clock, [s.adapters[task.id]]);
      }
    case StopContainer(e) => HasSeenGrows(s.history, Item(t, s.clock, Called(Stop(task.id), o)), t, e);
    case RemoveContainer(e) => ContainerEarned(s.history, t, s.clock, e);
    case RemoveImage(e) => ImageEarned(s.history, t, s.clock, e);
    case _ =>
  }

  lemma OffloadEarns(s: State, t: nat, o: Outcome)
    requires t < |s.tasks| && s.tasks[t].Offload? && CanStep(s.tasks[t], s.adapters, o, s.clock)
             && Earned(s.tasks[t], t, s.history)
    ensures var step := StepTask(s.tasks[t], s.adapters, o, s.clock);
            Earned(step.next, t, HistoryAfter(s, t, step.effect))
  {
    var pc := s.tasks[t].opc;
    var step := StepTask(s.tasks[t], s.adapters, o, s.clock);
    var history := HistoryAfter(s, t, step.effect);
    if pc.Snapshot? {
      SeenEarned(s.history, t, s.clock, o.entries);
    } else {
      if history != s.history {
        AllSeenGrow(s.history, history[|s.history|], t, pc.queue);
      }
      if pc.OffloadContainer? {
        ContainerEarned(s.history, t, s.clock, pc.queue[0]);
      } else if pc.OffloadImage? {
        ImageEarned(s.history, t, s.clock, pc.queue[0]);
      }
    }
  }

  lemma LaunchEarned(s: State, t: nat, o: Outcome)
    requires t < |s.tasks| && CanStep(s.tasks[t], s.adapters, o, s.clock) && Earned(s.tasks[t], t, s.history)
    ensures var effect := StepTask(s.tasks[t], s.adapters, o, s.clock).effect;
            effect.Ask? && effect.call.Launch? ==>
              && s.tasks[t].Install? && effect.call == Launch(InstallId(s.tasks[t]), s.tasks[t].image)
              && Verified(s.history, t, s.tasks[t].image, s.tasks[t].checksum)
  {
    hide Verified, ContainerRemoved, ImageRemoved, HasSeen;
  }

  lemma DeleteEarned(s: State, t: nat, o: Outcome)
    requires t < |s.tasks| && CanStep(s.tasks[t], s.adapters, o, s.clock) && Earned(s.tasks[t], t, s.history)
    ensures var effect := StepTask(s.tasks[t], s.adapters, o, s.clock).effect;
            effect.Delete? ==> exists e: AdapterEntry :: e.adapterId == effect.id && ImageRemoved(s.history, t, e)
  {
    hide Verified, ContainerRemoved, ImageRemoved, HasSeen;
  }

  lemma ReadIsCurrent(s: State, t: nat, o: Outcome)
    requires LogRefinesMap(s) && t < |s.tasks| && CanStep(s.tasks[t], s.adapters, o, s.clock)
    ensures var effect := StepTask(s.tasks[t], s.adapters, o, s.clock).effect;
            effect.Read? ==> forall e :: e in effect.entries ==> LoggedState(s.history, e.adapterId) == Some(e.state)
  {
    var effect := StepTask(s.tasks[t], s.adapters, o, s.clock).effect;
    if effect.Read? {
      forall e | e in effect.entries ensures e.adapterId in s.adapters && s.adapters[e.adapterId] == e {
      }
      hide StepTask, LoggedState, Chained;
    }
  }

  // A task keeps its kind and its arguments.
  lemma TaskIdentity(s: State, t: nat, o: Outcome, u: nat)
    requires t < |s.tasks| && u < |s.tasks| && CanStep(s.tasks[t], s.adapters, o, s.clock)
    ensures var before, after := s.tasks[u], Apply(s, Step(t, o)).tasks[u];
            && before.Install? == after.Install?
            && (before.Install? ==> before.image == after.image && before.checksum == after.checksum)
            && before.Offload? == after.Offload?
            && (before.Offload? ==> before.timeout == after.timeout)
  {
  }

  // The newest entry of the log is allowed by what its actor had earned.
  lemma NewestAllowed(s: State, t: nat, o: Outcome)
    requires Gated(s) && t < |s.tasks| && CanStep(s.tasks[t], s.adapters, o, s.clock)
    ensures var s' := Apply(s, Step(t, o)); |s'.history| > |s.history| ==> Allowed(s'.tasks, s'.history, |s.history|)
  {
    assert Earned(s.tasks[t], t, s.history);
    LaunchEarned(s, t, o);
    DeleteEarned(s, t, o);
    ReadIsCurrent(s, t, o);
    TaskIdentity(s, t, o, t);
    hide StepTask, CanStep, LoggedState, Verified, ImageRemoved, LogRefinesMap;
    var s' := Apply(s, Step(t, o));
    if |s'.history| > |s.history| {
      assert s'.history[..|s.history|] == s.history;
    }
  }

  lemma EarnedKept(s: State, t: nat, o: Outcome, u: nat)
    requires Gated(s) && t < |s.tasks| && CanStep(s.tasks[t], s.adapters, o, s.clock)
    requires u < |Apply(s, Step(t, o)).tasks|
    ensures var s' := Apply(s, Step(t, o)); Earned(s'.tasks[u], u, s'.history)
  {
    var s' := Apply(s, Step(t, o));
    if u == t {
      assert Earned(s.tasks[t], t, s.history);
      match s.tasks[t]
      case Install(_, _, _, _) => InstallEarns(s, t, o);
      case Monitor(_, _) =>
      case Remove(_, _) => RemoveEarns(s, t, o);
      case Offload(_, _) => OffloadEarns(s, t, o);
    } else if u < |s.tasks| && s'.history != s.history {
      hide StepTask, Earned, LogRefinesMap, Allowed;
      EarnedGrows(s.tasks[u], u, s.history, s'.history[|s.history|]);
    }
  }

  lemma GatedStep(s: State, t: nat, o: Outcome)
    requires Gated(s) && t < |s.tasks| && CanStep(s.tasks[t], s.adapters, o, s.clock)
    ensures Gated(Apply(s, Step(t, o)))
  {
    var s' := Apply(s, Step(t, o));
    LogKept(s, t, StepTask(s.tasks[t], s.adapters, o, s.clock).effect);
    NewestAllowed(s, t, o);
    hide StepTask, Earned, LogRefinesMap;
    forall u | 0 <= u < |s'.tasks| ensures Earned(s'.tasks[u], u, s'.history) {
      EarnedKept(s, t, o, u);
    }
    forall k | 0 <= k < |s'.history| ensures Allowed(s'.tasks, s'.history, k) {
      if k < |s.history| {
        assert Allowed(s.tasks, s.history, k);
        assert s'.history[k] == s.history[k] && s'.history[..k] == s.history[..k];
        TaskIdentity(s, t, o, s.history[k].actor);
      }
    }
  }

  lemma GatedSubmit(s: State, a: Action)
    requires Gated(s) && !a.Step?
    ensures Gated(Apply(s, a))
  {
    var s' := Apply(s, a);
    forall k | 0 <= k < |s'.history| ensures Allowed(s'.tasks, s'.history, k) {
      assert Allowed(s.tasks, s.history, k);
    }
  }

  // In every run from the initial state a container is launched only by an install task
  // whose own inspection returned exactly the requested checksum, and an adapter leaves the
  // map only through a task that read its entry and then removed its container and image.
  lemma {:induction false} GatedAlways(s: State, actions: seq<Action>)
    requires Gated(s) && IsRun(s, actions)
    ensures Gated(After(s, actions))
    decreases |actions|
  {
    if actions == [] {
    } else {
      var a := actions[0];
      if a.Step? {
        GatedStep(s, a.task, a.outcome);
      } else {
        GatedSubmit(s, a);
      }
      GatedAlways(Apply(s, a), actions[1..]);
    }
  }

  // -------- offload timing --------

  // The latest log item that created, moved or dropped an adapter.
  function LastTouch(history: seq<Item>, id: string): Option<Item> {
    if history == [] then None
    else
      var last := history[|history| - 1];
      match last.fact
      case Created(e) => if e.adapterId == id then Some(last) else LastTouch(history[..|history| - 1], id)
      case Moved(i, _, _, _) => if i == id then Some(last) else LastTouch(history[..|history| - 1], id)
      case Dropped(i) => if i == id then Some(last) else LastTouch(history[..|history| - 1], id)
      case _ => LastTouch(history[..|history| - 1], id)
  }

  // The adapter's latest event is a transition to Stopped at the given instant.
  predicate StoppedSince(history: seq<Item>, id: string, since: nat) {
    var touch := LastTouch(history, id);
    touch.Some? && touch.value.time == since && touch.value.fact.Moved? && touch.value.fact.newState == Stopped
  }

  // The entry agrees with the latest log item about it: a stopped adapter records the
  // instant of that transition and a failed one has a message.
  ghost predicate UpToDate(entry: AdapterEntry, touch: Option<Item>, clock: nat) {
    touch.Some? && touch.value.time <= clock &&
    match touch.value.fact
    case Created(e) => entry == e && e.state == Unknown
    case Moved(_, _, newState, _) =>
      && entry.state == newState
      && (newState == Stopped ==> entry.stoppedAt == Some(touch.value.time))
      && (newState == Error ==> entry.errorMessage.Some?)
    case _ => false
  }

  ghost predicate Timed(s: State) {
    && WellKeyed(s.adapters)
    && forall id :: id in s.adapters ==> UpToDate(s.adapters[id], LastTouch(s.history, id), s.clock)
  }

  ghost predicate DueAt(history: seq<Item>, id: string, timeout: nat, now: nat) {
    exists since: nat :: StoppedSince(history, id, since) && since + timeout <= now
  }

  // Every adapter in a snapshot of an offload cycle had then been stopped for the timeout.
  ghost predicate Timely(s: State) {
    forall k ::
      0 <= k < |s.history| && s.history[k].fact.Saw? && s.history[k].actor < |s.tasks|
        && s.tasks[s.history[k].actor].Offload? ==>
      forall e :: e in s.history[k].fact.entries ==>
        DueAt(s.history[..k], e.adapterId, s.tasks[s.history[k].actor].timeout, s.history[k].time)
  }

  // New entries start as Unknown, and a transition to Error carries a message.
  predicate Proper(effect: Effect) {
    match effect
    case Put(e) => e.state == Unknown
    case Move(_, newState, errorMsg) => newState == Error ==> errorMsg.Some?
    case _ => true
  }

  lemma StepsProper(task: Task, adapters: Adapters, o: Outcome, now: nat)
    requires CanStep(task, adapters, o, now)
    ensures Proper(StepTask(task, adapters, o, now).effect)
  {
  }

  // The latest log item about an adapter after one more effect.
  lemma TouchAfter(s: State, actor: nat, effect: Effect, id: string)
    ensures var touch := LastTouch(HistoryAfter(s, actor, effect), id);
            match effect
            case Put(e) => touch == if e.adapterId == id then Some(Item(actor, s.clock, Created(e)))
              else LastTouch(s.history, id)
            case Move(x, newState, errorMsg) =>
              touch == if x == id && id in s.adapters
                then Some(Item(actor, s.clock, Moved(id, s.adapters[id].state, newState, errorMsg)))
                       else LastTouch(s.history, id)
            case Delete(x) =>
              touch == if x == id && id in s.adapters then Some(Item(actor, s.clock, Dropped(id)))
                else LastTouch(s.history, id)
            case _ => touch == LastTouch(s.history, id)
  {
    var history := HistoryAfter(s, actor, effect);
    if history != s.history {
      assert history[..|history| - 1] == s.history;
    }
  }

  lemma TimedKept(s: State, actor: nat, effect: Effect)
    requires Timed(s) && Proper(effect)
    ensures Timed(State(AdaptersAfter(s.adapters, effect, s.clock), s.tasks, HistoryAfter(s, actor, effect), s.clock))
  {
    hide HistoryAfter, LastTouch;
    var adapters, history := AdaptersAfter(s.adapters, effect, s.clock), HistoryAfter(s, actor, effect);
    forall id | id in adapters ensures UpToDate(adapters[id], LastTouch(history, id), s.clock) {
      TouchAfter(s, actor, effect, id);
    }
  }

  lemma CandidateDue(s: State, e: AdapterEntry, timeout: nat)
    requires Timed(s) && e.adapterId in s.adapters && s.adapters[e.adapterId] == e && IsCandidate(e, timeout, s.clock)
    ensures DueAt(s.history, e.adapterId, timeout, s.clock)
  {
    assert UpToDate(e, LastTouch(s.history, e.adapterId), s.clock);
    assert StoppedSince(s.history, e.adapterId, e.stoppedAt.value);
  }

  lemma SnapshotIsDue(task: Task, adapters: Adapters, o: Outcome, now: nat)
    requires task.Offload? && CanStep(task, adapters, o, now)
    ensures var effect := StepTask(task, adapters, o, now).effect;
            effect.Read? ==>
              forall e :: e in effect.entries ==>
                e.adapterId in adapters && adapters[e.adapterId] == e && IsCandidate(e, task.timeout, now)
  {
  }

  lemma TimelyStep(s: State, t: nat, o: Outcome)
    requires Timed(s) && Timely(s) && Gated(s) && t < |s.tasks| && CanStep(s.tasks[t], s.adapters, o, s.clock)
    ensures Timed(Apply(s, Step(t, o))) && Timely(Apply(s, Step(t, o)))
  {
    var step := StepTask(s.tasks[t], s.adapters, o, s.clock);
    var s' := Apply(s, Step(t, o));
    StepsProper(s.tasks[t], s.adapters, o, s.clock);
    TimedKept(s, t, step.effect);
    if s.tasks[t].Offload? {
      SnapshotIsDue(s.tasks[t], s.adapters, o, s.clock);
    }
    TaskIdentity(s, t, o, t);
    hide StepTask, CanStep, Earned, DueAt, Timed, IsCandidate, LogRefinesMap;
    forall k, e | 0 <= k < |s'.history| && s'.history[k].fact.Saw? && s'.history[k].actor < |s'.tasks|
      && s'.tasks[s'.history[k].actor].Offload? && e in s'.history[k].fact.entries
      ensures DueAt(s'.history[..k], e.adapterId, s'.tasks[s'.history[k].actor].timeout, s'.history[k].time)
    {
      if k < |s.history| {
        assert Allowed(s.tasks, s.history, k);
        assert s'.history[k] == s.history[k] && s'.history[..k] == s.history[..k];
        TaskIdentity(s, t, o, s.history[k].actor);
      } else {
        assert s'.history[..k] == s.history;
        CandidateDue(s, e, s.tasks[t].timeout);
      }
    }
  }

  lemma TimelySubmit(s: State, a: Action)
    requires Timed(s) && Timely(s) && Gated(s) && !a.Step?
    ensures Timed(Apply(s, a)) && Timely(Apply(s, a))
  {
    var s' := Apply(s, a);
    forall k, e | 0 <= k < |s'.history| && s'.history[k].fact.Saw? && s'.history[k].actor < |s'.tasks|
      && s'.tasks[s'.history[k].actor].Offload? && e in s'.history[k].fact.entries
      ensures DueAt(s'.history[..k], e.adapterId, s'.tasks[s'.history[k].actor].timeout, s'.history[k].time)
    {
      assert Allowed(s.tasks, s.history, k);
    }
  }

  lemma {:induction false} TimelyAlways(s: State, actions: seq<Action>)
    requires Timed(s) && Timely(s) && Gated(s) && IsRun(s, actions)
    ensures Timed(After(s, actions)) && Timely(After(s, actions)) && Gated(After(s, actions))
    decreases |actions|
  {
    if actions == [] {
    } else {
      var a := actions[0];
      if a.Step? {
        GatedStep(s, a.task, a.outcome);
        TimelyStep(s, a.task, a.outcome);
      } else {
        GatedSubmit(s, a);
        TimelySubmit(s, a);
      }
      TimelyAlways(Apply(s, a), actions[1..]);
    }
  }

  // -------- main results, for every run from the initial state --------

  lemma AllInvariants(actions: seq<Action>)
    requires IsRun(INITIAL, actions)
    ensures Gated(After(INITIAL, actions)) && Timed(After(INITIAL, actions)) && Timely(After(INITIAL, actions))
  {
    TimelyAlways(INITIAL, actions);
  }

  // The events are a faithful account of the map.
  lemma EventsDetermineMap(actions: seq<Action>, id: string)
    requires IsRun(INITIAL, actions)
    ensures var s := After(INITIAL, actions);
            Chained(s.history) && LoggedState(s.history, id) == CurrentState(s.adapters, id)
  {
    AllInvariants(actions);
  }

  // A container is launched only by an install task, for its own image and id, after the
  // task's own inspection of that image returned exactly the requested checksum.
  lemma LaunchOnlyVerified(actions: seq<Action>, k: nat, id: string, image: string, o: Outcome)
    requires IsRun(INITIAL, actions) && k < |After(INITIAL, actions).history|
    requires After(INITIAL, actions).history[k].fact == Called(Launch(id, image), o)
    ensures var s := After(INITIAL, actions); var t := s.history[k].actor;
            && t < |s.tasks| && s.tasks[t].Install? && s.tasks[t].image == image && id == DeriveAdapterId(image)
            && exists j :: 0 <= j < k
                           && s.history[j].actor == t
                           && s.history[j].fact == Called(Inspect(image), Digest(s.tasks[t].checksum))
  {
    AllInvariants(actions);
    var s := After(INITIAL, actions);
    var t := s.history[k].actor;
    assert Allowed(s.tasks, s.history, k);
    var earlier := s.history[..k];
    var j :| 0 <= j < |earlier| && earlier[j].actor == t
      && earlier[j].fact == Called(Inspect(image), Digest(s.tasks[t].checksum));
    assert s.history[j] == earlier[j];
  }

  // An adapter leaves the map only through a task that read its entry, then removed the
  // container and after that the entry's image, each with success.
  lemma DropOnlyAfterRemoval(actions: seq<Action>, k: nat, id: string)
    requires IsRun(INITIAL, actions) && k < |After(INITIAL, actions).history|
    requires After(INITIAL, actions).history[k].fact == Dropped(id)
    ensures var s := After(INITIAL, actions);
            exists e: AdapterEntry :: e.adapterId == id && ImageRemoved(s.history[..k], s.history[k].actor, e)
  {
    AllInvariants(actions);
    assert Allowed(After(INITIAL, actions).tasks, After(INITIAL, actions).history, k);
  }

  lemma SeenBefore(history: seq<Item>, t: nat, e: AdapterEntry) returns (i: nat)
    requires ImageRemoved(history, t, e)
    ensures i < |history| && history[i].actor == t && history[i].fact.Saw? && e in history[i].fact.entries
  {
    var m :| 0 <= m < |history| && history[m].actor == t && history[m].fact == Called(Rmi(e.imageRef), Success)
      && ContainerRemoved(history[..m], t, e);
    var earlier := history[..m];
    var n, j :| 0 <= n < j < |earlier| && earlier[n].actor == t && earlier[j].actor == t
      && earlier[n].fact.Saw? && e in earlier[n].fact.entries && earlier[j].fact == Called(Rm(e.adapterId), Success);
    i := n;
    assert history[n] == earlier[n];
  }

  // When an offload cycle forgets an adapter, it had listed the adapter at an earlier moment
  // at which the adapter had been stopped for at least the timeout.
  lemma OffloadRespectsTimeout(actions: seq<Action>, k: nat, id: string)
    requires IsRun(INITIAL, actions) && k < |After(INITIAL, actions).history|
    requires var s := After(INITIAL, actions);
             s.history[k].fact == Dropped(id) && s.history[k].actor < |s.tasks| && s.tasks[s.history[k].actor].Offload?
    ensures var s := After(INITIAL, actions);
            exists i :: 0 <= i < k && s.history[i].actor == s.history[k].actor && s.history[i].fact.Saw?
              && DueAt(s.history[..i], id, s.tasks[s.history[k].actor].timeout, s.history[i].time)
  {
    AllInvariants(actions);
    DropOnlyAfterRemoval(actions, k, id);
    var s := After(INITIAL, actions);
    var t := s.history[k].actor;
    var e: AdapterEntry :| e.adapterId == id && ImageRemoved(s.history[..k], t, e);
    var i := SeenBefore(s.history[..k], t, e);
    assert s.history[..k][i] == s.history[i];
    assert s.history[i].fact.Saw? && e in s.history[i].fact.entries;
  }

  // A stopped adapter records when it was stopped, and a failed one why.
  lemma EntriesExplained(actions: seq<Action>, id: string)
    requires IsRun(INITIAL, actions) && id in After(INITIAL, actions).adapters
    ensures var s := After(INITIAL, actions); var e := s.adapters[id];
            && (e.state == Stopped ==> e.stoppedAt.Some? && StoppedSince(s.history, id, e.stoppedAt.value))
            && (e.state == Error ==> e.errorMessage.Some?)
  {
    AllInvariants(actions);
    var s := After(INITIAL, actions);
    assert UpToDate(s.adapters[id], LastTouch(s.history, id), s.clock);
  }
}
