/**
 The update service as a transition system.

 Every operation on the adapter map is one atomic step, as it is under the service's mutex;
 every podman call is one step with an arbitrary outcome; every task has a program counter.
 A run is any interleaving of the steps of any number of tasks.
 */
module AdapterTasks {
  import opened Wrappers
  import opened AdapterId
  import opened StateManager

  datatype Call =
    | Stop(id: string)
    | Pull(image: string)
    | Inspect(image: string)
    | Launch(id: string, image: string)
    | Wait(id: string)
    | Rm(id: string)
    | Rmi(image: string)

  // What a step is told by its environment.
  datatype Outcome =
    | Success
    | Failed(message: string)
    | Digest(digest: string)
    | Exit(code: int)
    | Found(entry: Option<AdapterEntry>)
    | Listed(entries: seq<AdapterEntry>)

  // -------- tasks --------

  datatype InstallPc =
    | ChooseVictim
    | StopVictim(victim: string)
    | MarkStopped(victim: string)
    | MarkFailed(victim: string, why: string)
    | CreateEntry
    | ToDownloading
    | PullImage
    | DownloadFailed(why: string)
    | InspectDigest
    | Mismatch
    | DropImage
    | ToInstalling
    | LaunchContainer
    | LaunchFailed(why: string)
    | ToRunning
    | Returned

  datatype MonitorPc = Waiting | Exited(code: int) | WaitFailed(why: string) | Reported

  datatype RemoveError = NoSuchAdapter(message: string) | PodmanFailed(message: string)

  datatype RemovePc =
    | Lookup
    | StopContainer(entry: AdapterEntry)
    | RemoveContainer(entry: AdapterEntry)
    | RemoveImage(entry: AdapterEntry)
    | Forget(entry: AdapterEntry)
    | GiveUp(why: string)
    | Removed(answer: Result<(), RemoveError>)

  // The queue holds the entries still to be offloaded, the current one first.
  datatype OffloadPc =
    | Snapshot
    | MarkOffloading(queue: seq<AdapterEntry>)
    | OffloadContainer(queue: seq<AdapterEntry>)
    | OffloadImage(queue: seq<AdapterEntry>)
    | OffloadForget(queue: seq<AdapterEntry>)
    | OffloadFailed(queue: seq<AdapterEntry>, why: string)

  datatype Task =
    | Install(image: string, checksum: string, jobId: string, ipc: InstallPc)
    | Monitor(id: string, mpc: MonitorPc)
    | Remove(id: string, rpc: RemovePc)
    | Offload(timeout: nat, opc: OffloadPc)

  function InstallId(task: Task): string
    requires task.Install?
  {
    DeriveAdapterId(task.image)
  }

  // What a step does to the shared state.
  datatype Effect =
    | Ask(call: Call, outcome: Outcome)
    | Read(entries: seq<AdapterEntry>)
    | Put(entry: AdapterEntry)
    | Move(id: string, newState: AdapterState, errorMsg: Option<string>)
    | Delete(id: string)

  datatype Stepped = Stepped(effect: Effect, next: Task, spawned: seq<Task>)

  // Podman calls report success or failure.
  predicate Plain(o: Outcome) {
    o.Success? || o.Failed?
  }

  ghost predicate CanInstallStep(pc: InstallPc, adapters: Adapters, o: Outcome) {
    match pc
    case ChooseVictim => o.Found? && IsRunningChoice(adapters, o.entry)
    case StopVictim(_) => Plain(o)
    case PullImage => Plain(o)
    case InspectDigest => o.Digest? || o.Failed?
    case DropImage => Plain(o)
    case LaunchContainer => Plain(o)
    case Returned => false
    case _ => o.Success?
  }

  function NewEntry(task: Task): AdapterEntry
    requires task.Install?
  {
    AdapterEntry(InstallId(task), task.image, task.checksum, Unknown, task.jobId, None, None)
  }

  function InstallStep(task: Task, adapters: Adapters, o: Outcome): (r: Stepped)
    requires task.Install? && CanInstallStep(task.ipc, adapters, o)
    ensures r.next.Install? && r.next.image == task.image && r.next.checksum == task.checksum
  {
    var id := InstallId(task);
    match task.ipc
    case ChooseVictim =>
      (match o.entry
       case None => Stepped(Read([]), task.(ipc := CreateEntry), [])
       case Some(e) => Stepped(Read([e]), task.(ipc := StopVictim(e.adapterId)), []))
    case StopVictim(v) =>
      Stepped(Ask(Stop(v), o), task.(ipc := if o.Success? then MarkStopped(v) else MarkFailed(v, o.message)), [])
    case MarkStopped(v) => Stepped(Move(v, Stopped, None), task.(ipc := CreateEntry), [])
    case MarkFailed(v, why) => Stepped(Move(v, Error, Some(why)), task.(ipc := CreateEntry), [])
    case CreateEntry => Stepped(Put(NewEntry(task)), task.(ipc := ToDownloading), [])
    case ToDownloading => Stepped(Move(id, Downloading, None), task.(ipc := PullImage), [])
    case PullImage =>
      Stepped(Ask(Pull(task.image), o), task.(ipc := if o.Success? then InspectDigest else DownloadFailed(o.message)),
        [])
    case DownloadFailed(why) => Stepped(Move(id, Error, Some(why)), task.(ipc := Returned), [])
    case InspectDigest =>
      Stepped(Ask(Inspect(task.image), o),
              task.(ipc := if o.Failed? then DownloadFailed(o.message)
                           else if o.digest != task.checksum then Mismatch else ToInstalling), [])
    case Mismatch => Stepped(Move(id, Error, Some("checksum_mismatch")), task.(ipc := DropImage), [])
    case DropImage => Stepped(Ask(Rmi(task.image), o), task.(ipc := Returned), [])
    case ToInstalling => Stepped(Move(id, Installing, None), task.(ipc := LaunchContainer), [])
    case LaunchContainer =>
      Stepped(Ask(Launch(id, task.image), o), task.(ipc := if o.Success? then ToRunning else LaunchFailed(o.message)),
        [])
    case LaunchFailed(why) => Stepped(Move(id, Error, Some(why)), task.(ipc := Returned), [])
    case ToRunning => Stepped(Move(id, Running, None), task.(ipc := Returned), [Monitor(id, Waiting)])
  }

  predicate CanMonitorStep(pc: MonitorPc, o: Outcome) {
    match pc
    case Waiting => o.Exit? || o.Failed?
    case Reported => false
    case _ => o.Success?
  }

  function Decimal(n: int): string
    decreases n < 0, if n < 0 then -n else n
  {
    if n < 0 then "-" + Decimal(-n)
    else (if n >= 10 then Decimal(n / 10) else "") + ["0123456789"[n % 10]]
  }

  function ExitMessage(code: int): string {
    "container exited with code " + Decimal(code)
  }

  function MonitorStep(task: Task, o: Outcome): Stepped
    requires task.Monitor? && CanMonitorStep(task.mpc, o)
  {
    match task.mpc
    case Waiting => Stepped(Ask(Wait(task.id), o), task.(mpc := if o.Exit? then Exited(o.code)
      else WaitFailed(o.message)), [])
    case Exited(code) =>
      Stepped(if code == 0 then Move(task.id, Stopped, None) else Move(task.id, Error, Some(ExitMessage(code))),
              task.(mpc := Reported), [])
    case WaitFailed(why) => Stepped(Move(task.id, Error, Some(why)), task.(mpc := Reported), [])
  }

  predicate CanRemoveStep(pc: RemovePc, o: Outcome) {
    match pc
    case StopContainer(_) => Plain(o)
    case RemoveContainer(_) => Plain(o)
    case RemoveImage(_) => Plain(o)
    case Removed(_) => false
    case _ => o.Success?
  }

  function RemoveStep(task: Task, adapters: Adapters, o: Outcome): Stepped
    requires task.Remove? && CanRemoveStep(task.rpc, o)
  {
    match task.rpc
    case Lookup =>
      if task.id !in adapters
        then Stepped(Read([]), task.(rpc := Removed(Err(NoSuchAdapter("adapter not found: " + task.id)))), [])
      else
        var e := adapters[task.id];
        Stepped(Read([e]), task.(rpc := if e.state == Running then StopContainer(e) else RemoveContainer(e)), [])
    case StopContainer(e) =>
      Stepped(Ask(Stop(task.id), o), task.(rpc := if o.Success? then RemoveContainer(e) else GiveUp(o.message)), [])
    case RemoveContainer(e) =>
      Stepped(Ask(Rm(task.id), o), task.(rpc := if o.Success? then RemoveImage(e) else GiveUp(o.message)), [])
    case RemoveImage(e) =>
      Stepped(Ask(Rmi(e.imageRef), o), task.(rpc := if o.Success? then Forget(e) else GiveUp(o.message)), [])
    case Forget(e) => Stepped(Delete(task.id), task.(rpc := Removed(Ok(()))), [])
    case GiveUp(why) => Stepped(Move(task.id, Error, Some(why)), task.(rpc := Removed(Err(PodmanFailed(why)))), [])
  }

  ghost predicate CanOffloadStep(timeout: nat, pc: OffloadPc, adapters: Adapters, o: Outcome, now: nat) {
    match pc
    case Snapshot => o.Listed? && IsCandidateList(adapters, o.entries, timeout, now)
    case MarkOffloading(queue) => queue != [] && o.Success?
    case OffloadContainer(queue) => queue != [] && Plain(o)
    case OffloadImage(queue) => queue != [] && Plain(o)
    case OffloadForget(queue) => queue != [] && o.Success?
    case OffloadFailed(queue, _) => queue != [] && o.Success?
  }

  function OffloadStep(task: Task, adapters: Adapters, o: Outcome, now: nat): Stepped
    requires task.Offload? && CanOffloadStep(task.timeout, task.opc, adapters, o, now)
  {
    match task.opc
    case Snapshot => Stepped(Read(o.entries), task.(opc := MarkOffloading(o.entries)), [])
    case MarkOffloading(q) => Stepped(Move(q[0].adapterId, Offloading, None), task.(opc := OffloadContainer(q)), [])
    case OffloadContainer(q) =>
      Stepped(Ask(Rm(q[0].adapterId), o), task.(opc := if o.Success? then OffloadImage(q)
        else OffloadFailed(q, o.message)), [])
    case OffloadImage(q) =>
      Stepped(Ask(Rmi(q[0].imageRef), o), task.(opc := if o.Success? then OffloadForget(q)
        else OffloadFailed(q, o.message)), [])
    case OffloadForget(q) => Stepped(Delete(q[0].adapterId), task.(opc := MarkOffloading(q[1..])), [])
    case OffloadFailed(q, why) => Stepped(Move(q[0].adapterId, Error, Some(why)), task.(opc := MarkOffloading(q[1..])),
      [])
  }

  ghost predicate CanStep(task: Task, adapters: Adapters, o: Outcome, now: nat) {
    match task
    case Install(_, _, _, pc) => CanInstallStep(pc, adapters, o)
    case Monitor(_, pc) => CanMonitorStep(pc, o)
    case Remove(_, pc) => CanRemoveStep(pc, o)
    case Offload(timeout, pc) => CanOffloadStep(timeout, pc, adapters, o, now)
  }

  function StepTask(task: Task, adapters: Adapters, o: Outcome, now: nat): Stepped
    requires CanStep(task, adapters, o, now)
  {
    match task
    case Install(_, _, _, _) => InstallStep(task, adapters, o)
    case Monitor(_, _) => MonitorStep(task, o)
    case Remove(_, _) => RemoveStep(task, adapters, o)
    case Offload(_, _) => OffloadStep(task, adapters, o, now)
  }

  // -------- the whole system --------

  // What happened, by whom and when; every step is one fact.  The `Moved` facts are the
  // broadcast events, with the message that the entry then carries.  A transition or removal
  // of an absent adapter is `Missed`.
  datatype Fact =
    | Called(call: Call, outcome: Outcome)
    | Saw(entries: seq<AdapterEntry>)
    | Created(entry: AdapterEntry)
    | Moved(id: string, oldState: AdapterState, newState: AdapterState, errorMsg: Option<string>)
    | Dropped(id: string)
    | Missed(id: string, wanted: Option<AdapterState>)

  predicate IsMove(fact: Fact, id: string, oldState: AdapterState, newState: AdapterState) {
    fact.Moved? && fact.id == id && fact.oldState == oldState && fact.newState == newState
  }

  datatype Item = Item(actor: nat, time: nat, fact: Fact)

  datatype State = State(adapters: Adapters, tasks: seq<Task>, history: seq<Item>, clock: nat)

  const INITIAL := State(map[], [], [], 0)

  function AdaptersAfter(adapters: Adapters, effect: Effect, now: nat): Adapters {
    match effect
    case Put(e) => adapters[e.adapterId := e]
    case Move(id, newState, errorMsg) => Transitioned(adapters, id, newState, errorMsg, now)
    case Delete(id) => adapters - {id}
    case _ => adapters
  }

  function FactOf(adapters: Adapters, effect: Effect): Fact {
    match effect
    case Ask(call, o) => Called(call, o)
    case Read(entries) => Saw(entries)
    case Put(e) => Created(e)
    case Move(id, newState, errorMsg) =>
      if id in adapters then Moved(id, adapters[id].state, newState, errorMsg) else Missed(id, Some(newState))
    case Delete(id) => if id in adapters then Dropped(id) else Missed(id, None)
  }

  function HistoryAfter(s: State, actor: nat, effect: Effect): seq<Item> {
    s.history + [Item(actor, s.clock, FactOf(s.adapters, effect))]
  }

  datatype Action =
    | SubmitInstall(image: string, checksum: string, jobId: string)
    | SubmitRemove(id: string)
    | SubmitCycle(timeout: nat)
    | Advance(elapsed: nat)
    | Step(task: nat, outcome: Outcome)

  ghost predicate Enabled(s: State, a: Action) {
    a.Step? ==> a.task < |s.tasks| && CanStep(s.tasks[a.task], s.adapters, a.outcome, s.clock)
  }

  // An install request with an empty argument is answered with an error and nothing else.
  function Apply(s: State, a: Action): State
    requires Enabled(s, a)
  {
    match a
    case SubmitInstall(image, checksum, jobId) =>
      if image == "" || checksum == "" then s
      else s.(tasks := s.tasks + [Install(image, checksum, jobId, ChooseVictim)])
    case SubmitRemove(id) => s.(tasks := s.tasks + [Remove(id, Lookup)])
    case SubmitCycle(timeout) => s.(tasks := s.tasks + [Offload(timeout, Snapshot)])
    case Advance(elapsed) => s.(clock := s.clock + elapsed)
    case Step(t, o) =>
      var step := StepTask(s.tasks[t], s.adapters, o, s.clock);
      State(AdaptersAfter(s.adapters, step.effect, s.clock),
            s.tasks[t := step.next] + step.spawned,
            HistoryAfter(s, t, step.effect),
            s.clock)
  }

  ghost predicate IsRun(s: State, actions: seq<Action>)
    decreases |actions|
  {
    actions == [] || (Enabled(s, actions[0]) && IsRun(Apply(s, actions[0]), actions[1..]))
  }

  function After(s: State, actions: seq<Action>): State
    requires IsRun(s, actions)
    decreases |actions|
  {
    if actions == [] then s else After(Apply(s, actions[0]), actions[1..])
  }

  lemma {:induction false} RunConcat(s: State, first: seq<Action>, second: seq<Action>)
    requires IsRun(s, first) && IsRun(After(s, first), second)
    ensures IsRun(s, first + second) && After(s, first + second) == After(After(s, first), second)
    decreases |first|
  {
    if first == [] {
      assert first + second == second;
    } else {
      hide Enabled, Apply;
      RunConcat(Apply(s, first[0]), first[1..], second);
      assert (first + second)[1..] == first[1..] + second;
    }
  }

  lemma RunOne(s: State, a: Action, rest: seq<Action>)
    requires Enabled(s, a) && IsRun(Apply(s, a), rest)
    ensures IsRun(s, [a] + rest) && After(s, [a] + rest) == After(Apply(s, a), rest)
    ensures [a] + [] == [a]
  {
    assert ([a] + rest)[0] == a && ([a] + rest)[1..] == rest;
  }
}
