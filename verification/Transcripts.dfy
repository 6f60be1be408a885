/**
 What each task has done, told from its own facts in the log: the calls it has made, with
 which arguments, in which order and with which answers, and the transitions it has made,
 with which messages.  A transition of an absent adapter counts as made.
 */
module Transcripts {
  import opened Wrappers
  import opened AdapterId
  import opened StateManager
  import opened AdapterTasks
  import opened AdapterHistory

  function OwnFacts(history: seq<Item>, t: nat): seq<Fact> {
    if history == [] then []
    else
      var last := history[|history| - 1];
      OwnFacts(history[..|history| - 1], t) + if last.actor == t then [last.fact] else []
  }

  predicate IsTransition(fact: Fact, id: string, newState: AdapterState, errorMsg: Option<string>) {
    || fact == Missed(id, Some(newState))
    || (fact.Moved? && fact.id == id && fact.newState == newState && fact.errorMsg == errorMsg)
  }

  predicate IsRemoval(fact: Fact, id: string) {
    fact == Dropped(id) || fact == Missed(id, None)
  }

  // A failed call and the message it failed with.
  predicate IsFailed(fact: Fact, call: Call, why: string) {
    fact == Called(call, Failed(why))
  }

  // A failed call, and the transition to Error with its message.
  predicate FailedCall(call: Fact, made: Call, transition: Fact, id: string) {
    && call.Called? && call.call == made && call.outcome.Failed?
    && IsTransition(transition, id, Error, Some(call.outcome.message))
  }

  // -------- installs --------

  // The search for a running adapter, and how the one found was stopped.
  predicate Cleared(facts: seq<Fact>) {
    || facts == [Saw([])]
    || (&& |facts| == 3 && facts[0].Saw? && |facts[0].entries| == 1
        && var victim := facts[0].entries[0].adapterId;
        || (facts[1] == Called(Stop(victim), Success) && IsTransition(facts[2], victim, Stopped, None))
        || FailedCall(facts[1], Stop(victim), facts[2], victim))
  }

  function ClearingLength(facts: seq<Fact>): nat {
    if facts != [] && facts[0] == Saw([]) then 1 else 3
  }

  datatype Request = Request(image: string, checksum: string, jobId: string)

  // After the search: the entry is created and the download announced.
  predicate Began(r: Request, facts: seq<Fact>) {
    && |facts| >= 2
    && facts[0] == Created(AdapterEntry(DeriveAdapterId(r.image), r.image, r.checksum, Unknown, r.jobId, None, None))
    && IsTransition(facts[1], DeriveAdapterId(r.image), Downloading, None)
  }

  predicate Pulled(r: Request, facts: seq<Fact>) {
    Began(r, facts) && |facts| >= 3 && facts[2] == Called(Pull(r.image), Success)
  }

  predicate DigestDiffers(r: Request, facts: seq<Fact>) {
    && Pulled(r, facts) && |facts| >= 4
    && facts[3].Called? && facts[3].call == Inspect(r.image)
    && facts[3].outcome.Digest? && facts[3].outcome.digest != r.checksum
  }

  predicate DigestAgrees(r: Request, facts: seq<Fact>) {
    Pulled(r, facts) && |facts| >= 4 && facts[3] == Called(Inspect(r.image), Digest(r.checksum))
  }

  predicate SetUp(r: Request, facts: seq<Fact>) {
    DigestAgrees(r, facts) && |facts| >= 5 && IsTransition(facts[4], DeriveAdapterId(r.image), Installing, None)
  }

  // Everything an install has done when it has returned.
  predicate InstallComplete(r: Request, facts: seq<Fact>) {
    var id := DeriveAdapterId(r.image);
    || (Began(r, facts) && |facts| == 4 && FailedCall(facts[2], Pull(r.image), facts[3], id))
    || (Pulled(r, facts) && |facts| == 5 && FailedCall(facts[3], Inspect(r.image), facts[4], id))
    || (&& DigestDiffers(r, facts) && |facts| == 6
        && IsTransition(facts[4], id, Error, Some("checksum_mismatch"))
        && facts[5].Called? && facts[5].call == Rmi(r.image))
    || (SetUp(r, facts) && |facts| == 7 && FailedCall(facts[5], Launch(id, r.image), facts[6], id))
    || (&& SetUp(r, facts) && |facts| == 7
        && facts[5] == Called(Launch(id, r.image), Success) && IsTransition(facts[6], id, Running, None))
  }

  // What it has done at each point after the search.
  predicate InstallDone(r: Request, facts: seq<Fact>, pc: InstallPc) {
    var id := DeriveAdapterId(r.image);
    match pc
    case CreateEntry => facts == []
    case ToDownloading =>
      facts == [Created(AdapterEntry(id, r.image, r.checksum, Unknown, r.jobId, None, None))]
    case PullImage => Began(r, facts) && |facts| == 2
    case DownloadFailed(why) =>
      || (Began(r, facts) && |facts| == 3 && IsFailed(facts[2], Pull(r.image), why))
      || (Pulled(r, facts) && |facts| == 4 && IsFailed(facts[3], Inspect(r.image), why))
    case InspectDigest => Pulled(r, facts) && |facts| == 3
    case Mismatch => DigestDiffers(r, facts) && |facts| == 4
    case DropImage =>
      DigestDiffers(r, facts) && |facts| == 5 && IsTransition(facts[4], id, Error, Some("checksum_mismatch"))
    case ToInstalling => DigestAgrees(r, facts) && |facts| == 4
    case LaunchContainer => SetUp(r, facts) && |facts| == 5
    case LaunchFailed(why) => SetUp(r, facts) && |facts| == 6 && IsFailed(facts[5], Launch(id, r.image), why)
    case ToRunning => SetUp(r, facts) && |facts| == 6 && facts[5] == Called(Launch(id, r.image), Success)
    case Returned => InstallComplete(r, facts)
    case _ => false
  }

  predicate InstallTold(r: Request, facts: seq<Fact>, pc: InstallPc) {
    match pc
    case ChooseVictim => facts == []
    case StopVictim(v) =>
      |facts| == 1 && facts[0].Saw? && |facts[0].entries| == 1 && facts[0].entries[0].adapterId == v
    case MarkStopped(v) =>
      && |facts| == 2 && facts[0].Saw? && |facts[0].entries| == 1 && facts[0].entries[0].adapterId == v
      && facts[1] == Called(Stop(v), Success)
    case MarkFailed(v, why) =>
      && |facts| == 2 && facts[0].Saw? && |facts[0].entries| == 1 && facts[0].entries[0].adapterId == v
      && IsFailed(facts[1], Stop(v), why)
    case _ =>
      var n := ClearingLength(facts);
      n <= |facts| && Cleared(facts[..n]) && InstallDone(r, facts[n..], pc)
  }

  // The whole transcript of an install that has returned.
  predicate IsInstallTranscript(r: Request, facts: seq<Fact>) {
    var n := ClearingLength(facts);
    n <= |facts| && Cleared(facts[..n]) && InstallComplete(r, facts[n..])
  }

  // The transcript of an install whose synchronous part has returned.
  predicate IsBegunTranscript(r: Request, facts: seq<Fact>) {
    var n := ClearingLength(facts);
    n + 2 == |facts| && Cleared(facts[..n]) && Began(r, facts[n..])
  }

  lemma InstallDoneStep(r: Request, task: Task, adapters: Adapters, o: Outcome, now: nat, facts: seq<Fact>)
    requires task.Install? && r == Request(task.image, task.checksum, task.jobId)
    requires CanStep(task, adapters, o, now) && InstallDone(r, facts, task.ipc)
    ensures var step := StepTask(task, adapters, o, now);
            step.next.Install? && InstallDone(r, facts + [FactOf(adapters, step.effect)], step.next.ipc)
  {
    hide DeriveAdapterId;
  }

  // After the search an install never returns to it.
  lemma InstallPastSearch(task: Task, adapters: Adapters, o: Outcome, now: nat)
    requires task.Install? && CanStep(task, adapters, o, now)
    ensures var step, pc := StepTask(task, adapters, o, now), task.ipc;
            && step.next.Install? && step.next.image == task.image && step.next.checksum == task.checksum
            && step.next.jobId == task.jobId
            && (pc.ChooseVictim? || pc.StopVictim? || pc.MarkStopped? || pc.MarkFailed?
                || !(step.next.ipc.ChooseVictim? || step.next.ipc.StopVictim? || step.next.ipc.MarkStopped?
                     || step.next.ipc.MarkFailed?))
  {
  }

  // While the install searches for a running adapter and stops it.
  lemma SearchToldStep(r: Request, task: Task, adapters: Adapters, o: Outcome, now: nat, facts: seq<Fact>)
    requires task.Install? && r == Request(task.image, task.checksum, task.jobId)
    requires task.ipc.ChooseVictim? || task.ipc.StopVictim? || task.ipc.MarkStopped? || task.ipc.MarkFailed?
    requires CanStep(task, adapters, o, now) && InstallTold(r, facts, task.ipc)
    ensures var step := StepTask(task, adapters, o, now);
            && step.next.Install? && r == Request(step.next.image, step.next.checksum, step.next.jobId)
            && InstallTold(r, facts + [FactOf(adapters, step.effect)], step.next.ipc)
  {
    hide DeriveAdapterId;
    var longer := facts + [FactOf(adapters, StepTask(task, adapters, o, now).effect)];
    var n := ClearingLength(longer);
    if task.ipc.ChooseVictim? {
      assert longer == [Saw(if o.entry.Some? then [o.entry.value] else [])];
      assert n <= |longer| ==> longer[..n] == longer && longer[n..] == [];
    } else if !task.ipc.StopVictim? {
      assert longer[..3] == longer && longer[3..] == [];
    }
  }

  // After the search.
  lemma LaterToldStep(r: Request, task: Task, adapters: Adapters, o: Outcome, now: nat, facts: seq<Fact>)
    requires task.Install? && r == Request(task.image, task.checksum, task.jobId)
    requires !(task.ipc.ChooseVictim? || task.ipc.StopVictim? || task.ipc.MarkStopped? || task.ipc.MarkFailed?)
    requires CanStep(task, adapters, o, now) && InstallTold(r, facts, task.ipc)
    ensures var step := StepTask(task, adapters, o, now);
            && step.next.Install? && r == Request(step.next.image, step.next.checksum, step.next.jobId)
            && InstallTold(r, facts + [FactOf(adapters, step.effect)], step.next.ipc)
  {
    var n := ClearingLength(facts);
    InstallDoneStep(r, task, adapters, o, now, facts[n..]);
    InstallPastSearch(task, adapters, o, now);
    var longer := facts + [FactOf(adapters, StepTask(task, adapters, o, now).effect)];
    hide StepTask, InstallDone, Cleared, CanStep, FactOf;
    assert n == ClearingLength(longer) && longer[..n] == facts[..n];
    assert longer[n..] == facts[n..] + [longer[|facts|]];
  }

  lemma InstallToldStep(r: Request, task: Task, adapters: Adapters, o: Outcome, now: nat, facts: seq<Fact>)
    requires task.Install? && r == Request(task.image, task.checksum, task.jobId)
    requires CanStep(task, adapters, o, now) && InstallTold(r, facts, task.ipc)
    ensures var step := StepTask(task, adapters, o, now);
            && step.next.Install? && r == Request(step.next.image, step.next.checksum, step.next.jobId)
            && InstallTold(r, facts + [FactOf(adapters, step.effect)], step.next.ipc)
  {
    if task.ipc.ChooseVictim? || task.ipc.StopVictim? || task.ipc.MarkStopped? || task.ipc.MarkFailed? {
      SearchToldStep(r, task, adapters, o, now, facts);
    } else {
      LaterToldStep(r, task, adapters, o, now, facts);
    }
    hide StepTask, CanStep, InstallTold;
  }

  // -------- monitors --------

  predicate IsMonitorTranscript(id: string, facts: seq<Fact>) {
    && |facts| == 2 && facts[0].Called? && facts[0].call == Wait(id)
    && match facts[0].outcome
       case Exit(code) =>
         if code == 0 then IsTransition(facts[1], id, Stopped, None)
         else IsTransition(facts[1], id, Error, Some("container exited with code " + Decimal(code)))
       case Failed(why) => IsTransition(facts[1], id, Error, Some(why))
       case _ => false
  }

  predicate MonitorTold(id: string, facts: seq<Fact>, pc: MonitorPc) {
    match pc
    case Waiting => facts == []
    case Exited(code) => facts == [Called(Wait(id), Exit(code))]
    case WaitFailed(why) => facts == [Called(Wait(id), Failed(why))]
    case Reported => IsMonitorTranscript(id, facts)
  }

  lemma MonitorToldStep(task: Task, adapters: Adapters, o: Outcome, now: nat, facts: seq<Fact>)
    requires task.Monitor? && CanStep(task, adapters, o, now) && MonitorTold(task.id, facts, task.mpc)
    ensures var step := StepTask(task, adapters, o, now);
            && step.next.Monitor? && step.next.id == task.id
            && MonitorTold(task.id, facts + [FactOf(adapters, step.effect)], step.next.mpc)
  {
  }

  // -------- removals --------

  // The adapter has been found and, if it was running, stopped.
  predicate FoundStopped(id: string, e: AdapterEntry, facts: seq<Fact>) {
    && e.adapterId == id
    && facts == [Saw([e])] + if e.state == Running then [Called(Stop(id), Success)] else []
  }

  // The call of a removal that failed, after the ones that succeeded.
  predicate RemovalFailed(id: string, facts: seq<Fact>, why: string) {
    && |facts| >= 2 && facts[0].Saw? && |facts[0].entries| == 1
    && var e := facts[0].entries[0];
       var before, last := facts[..|facts| - 1], facts[|facts| - 1];
       || (e.adapterId == id && e.state == Running && before == [Saw([e])] && IsFailed(last, Stop(id), why))
       || (FoundStopped(id, e, before) && IsFailed(last, Rm(id), why))
       || (&& before[|before| - 1] == Called(Rm(id), Success)
           && FoundStopped(id, e, before[..|before| - 1]) && IsFailed(last, Rmi(e.imageRef), why))
  }

  // Everything a removal has done when it has answered.
  predicate IsRemovalTranscript(id: string, facts: seq<Fact>, answer: Result<(), RemoveError>) {
    match answer
    case Ok(_) =>
      && |facts| >= 4 && facts[0].Saw? && |facts[0].entries| == 1
      && var e, n := facts[0].entries[0], |facts|;
      && FoundStopped(id, e, facts[..n - 3])
      && facts[n - 3] == Called(Rm(id), Success) && facts[n - 2] == Called(Rmi(e.imageRef), Success)
      && IsRemoval(facts[n - 1], id)
    case Err(NoSuchAdapter(message)) => facts == [Saw([])] && message == "adapter not found: " + id
    case Err(PodmanFailed(why)) =>
      && facts != [] && RemovalFailed(id, facts[..|facts| - 1], why)
      && IsTransition(facts[|facts| - 1], id, Error, Some(why))
  }

  predicate RemovalTold(id: string, facts: seq<Fact>, pc: RemovePc) {
    match pc
    case Lookup => facts == []
    case StopContainer(e) => facts == [Saw([e])] && e.adapterId == id && e.state == Running
    case RemoveContainer(e) => FoundStopped(id, e, facts)
    case RemoveImage(e) =>
      facts != [] && FoundStopped(id, e, facts[..|facts| - 1]) && facts[|facts| - 1] == Called(Rm(id), Success)
    case Forget(e) =>
      && |facts| >= 2 && FoundStopped(id, e, facts[..|facts| - 2])
      && facts[|facts| - 2] == Called(Rm(id), Success) && facts[|facts| - 1] == Called(Rmi(e.imageRef), Success)
    case GiveUp(why) => RemovalFailed(id, facts, why)
    case Removed(answer) => IsRemovalTranscript(id, facts, answer)
  }

  lemma RemovalToldStep(task: Task, adapters: Adapters, o: Outcome, now: nat, facts: seq<Fact>)
    requires task.Remove? && WellKeyed(adapters) && CanStep(task, adapters, o, now)
    requires RemovalTold(task.id, facts, task.rpc)
    ensures var step := StepTask(task, adapters, o, now);
            && step.next.Remove? && step.next.id == task.id
            && RemovalTold(task.id, facts + [FactOf(adapters, step.effect)], step.next.rpc)
  {
    var longer := facts + [FactOf(adapters, StepTask(task, adapters, o, now).effect)];
    assert longer[..|longer| - 1] == facts;
    match task.rpc
    case Lookup =>
    case StopContainer(_) =>
    case RemoveContainer(_) =>
    case RemoveImage(_) => assert longer[..|longer| - 2] == facts[..|facts| - 1];
    case Forget(_) => assert longer[..|longer| - 3] == facts[..|facts| - 2];
    case GiveUp(_) =>
    case Removed(_) =>
  }

  // -------- offload cycles --------

  // Everything a cycle has done about one listed entry.
  predicate EntryOffloaded(e: AdapterEntry, facts: seq<Fact>) {
    && |facts| >= 3 && IsTransition(facts[0], e.adapterId, Offloading, None)
    && if |facts| == 3 then FailedCall(facts[1], Rm(e.adapterId), facts[2], e.adapterId)
       else
         && |facts| == 4 && facts[1] == Called(Rm(e.adapterId), Success)
         && (|| FailedCall(facts[2], Rmi(e.imageRef), facts[3], e.adapterId)
             || (facts[2] == Called(Rmi(e.imageRef), Success) && IsRemoval(facts[3], e.adapterId)))
  }

  // ... and about several entries, one after the other.
  ghost predicate AllOffloaded(entries: seq<AdapterEntry>, facts: seq<Fact>)
    decreases |entries|
  {
    if entries == [] then facts == []
    else
      var last := |entries| - 1;
      exists k :: 0 <= k <= |facts| && AllOffloaded(entries[..last], facts[..k])
        && EntryOffloaded(entries[last], facts[k..])
  }

  ghost predicate IsCycleTranscript(facts: seq<Fact>) {
    facts != [] && facts[0].Saw? && AllOffloaded(facts[0].entries, facts[1..])
  }

  // What it has done about the entry at the head of its queue.
  predicate EntryTold(facts: seq<Fact>, pc: OffloadPc) {
    if pc.Snapshot? then false
    else if pc.MarkOffloading? then facts == []
    else
      && pc.queue != [] && facts != [] && IsTransition(facts[0], pc.queue[0].adapterId, Offloading, None)
      && var e := pc.queue[0];
         match pc
         case OffloadContainer(_) => |facts| == 1
         case OffloadImage(_) => |facts| == 2 && facts[1] == Called(Rm(e.adapterId), Success)
         case OffloadForget(_) =>
           |facts| == 3 && facts[1] == Called(Rm(e.adapterId), Success) && facts[2] == Called(Rmi(e.imageRef), Success)
         case OffloadFailed(_, why) =>
           || (|facts| == 2 && IsFailed(facts[1], Rm(e.adapterId), why))
           || (&& |facts| == 3 && facts[1] == Called(Rm(e.adapterId), Success)
               && IsFailed(facts[2], Rmi(e.imageRef), why))
         case _ => false
  }

  // The first n listed entries are done, which took the first k facts.
  ghost predicate CycleAt(facts: seq<Fact>, pc: OffloadPc, n: nat, k: nat) {
    && 1 <= k <= |facts| && facts[0].Saw? && n <= |facts[0].entries|
    && !pc.Snapshot? && facts[0].entries[n..] == pc.queue
    && AllOffloaded(facts[0].entries[..n], facts[1..k]) && EntryTold(facts[k..], pc)
  }

  ghost predicate CycleTold(facts: seq<Fact>, pc: OffloadPc) {
    if pc.Snapshot? then facts == [] else exists n: nat, k: nat :: CycleAt(facts, pc, n, k)
  }

  lemma EntryToldStep(task: Task, adapters: Adapters, o: Outcome, now: nat, facts: seq<Fact>)
    requires task.Offload? && !task.opc.Snapshot? && CanStep(task, adapters, o, now) && EntryTold(facts, task.opc)
    ensures var step := StepTask(task, adapters, o, now);
            var longer := facts + [FactOf(adapters, step.effect)];
            && step.next.Offload? && !step.next.opc.Snapshot? && task.opc.queue != []
            && if step.next.opc.MarkOffloading? then
                 step.next.opc.queue == task.opc.queue[1..] && EntryOffloaded(task.opc.queue[0], longer)
               else
                 step.next.opc.queue == task.opc.queue && EntryTold(longer, step.next.opc)
  {
  }

  lemma AllOffloadedAppend(entries: seq<AdapterEntry>, e: AdapterEntry, facts: seq<Fact>, more: seq<Fact>)
    requires AllOffloaded(entries, facts) && EntryOffloaded(e, more)
    ensures AllOffloaded(entries + [e], facts + more)
  {
    var all, longer := facts + more, entries + [e];
    assert longer[..|entries|] == entries && longer[|entries|] == e;
    assert all[..|facts|] == facts && all[|facts|..] == more;
  }

  lemma MarkTold(queue: seq<AdapterEntry>)
    ensures EntryTold([], MarkOffloading(queue))
  {
  }

  lemma HeadOf(entries: seq<AdapterEntry>, n: nat, queue: seq<AdapterEntry>)
    requires n <= |entries| && entries[n..] == queue && queue != []
    ensures n < |entries| && entries[..n] + [queue[0]] == entries[..n + 1] && entries[n + 1..] == queue[1..]
  {
  }

  // The entry at the head of the queue is done.
  lemma EntryEnds(facts: seq<Fact>, fact: Fact, pc: OffloadPc, n: nat, k: nat)
    requires CycleAt(facts, pc, n, k) && pc.queue != [] && EntryOffloaded(pc.queue[0], facts[k..] + [fact])
    ensures CycleTold(facts + [fact], MarkOffloading(pc.queue[1..]))
  {
    hide EntryTold, EntryOffloaded, AllOffloaded;
    var longer, entries := facts + [fact], facts[0].entries;
    HeadOf(entries, n, pc.queue);
    AllOffloadedAppend(entries[..n], pc.queue[0], facts[1..k], facts[k..] + [fact]);
    assert facts[1..k] + (facts[k..] + [fact]) == longer[1..|longer|];
    MarkTold(pc.queue[1..]);
    assert longer[|longer|..] == [] && longer[0] == facts[0];
    assert CycleAt(longer, MarkOffloading(pc.queue[1..]), n + 1, |longer|);
  }

  // It is not done yet.
  lemma EntryGoesOn(facts: seq<Fact>, fact: Fact, pc: OffloadPc, next: OffloadPc, n: nat, k: nat)
    requires CycleAt(facts, pc, n, k) && !next.Snapshot? && next.queue == pc.queue
             && EntryTold(facts[k..] + [fact], next)
    ensures CycleTold(facts + [fact], next)
  {
    var longer := facts + [fact];
    hide EntryTold, AllOffloaded;
    assert longer[1..k] == facts[1..k] && longer[k..] == facts[k..] + [fact];
    assert CycleAt(longer, next, n, k);
  }

  lemma CycleBegins(entries: seq<AdapterEntry>)
    ensures CycleTold([Saw(entries)], MarkOffloading(entries))
  {
    assert entries[0..] == entries;
    assert CycleAt([Saw(entries)], MarkOffloading(entries), 0, 1);
  }

  lemma CycleToldStep(task: Task, adapters: Adapters, o: Outcome, now: nat, facts: seq<Fact>)
    requires task.Offload? && CanStep(task, adapters, o, now) && CycleTold(facts, task.opc)
    ensures var step := StepTask(task, adapters, o, now);
            step.next.Offload? && CycleTold(facts + [FactOf(adapters, step.effect)], step.next.opc)
  {
    var step := StepTask(task, adapters, o, now);
    var fact := FactOf(adapters, step.effect);
    if task.opc.Snapshot? {
      CycleBegins(o.entries);
      assert facts + [fact] == [Saw(o.entries)];
    } else {
      var n: nat, k: nat :| CycleAt(facts, task.opc, n, k);
      EntryToldStep(task, adapters, o, now, facts[k..]);
      hide StepTask, CanStep, EntryTold, EntryOffloaded, AllOffloaded, CycleTold;
      if step.next.opc.MarkOffloading? {
        EntryEnds(facts, fact, task.opc, n, k);
      } else {
        EntryGoesOn(facts, fact, task.opc, step.next.opc, n, k);
      }
    }
  }

  // -------- every run --------

  ghost predicate Told(task: Task, facts: seq<Fact>) {
    match task
    case Install(image, checksum, jobId, pc) => InstallTold(Request(image, checksum, jobId), facts, pc)
    case Monitor(id, pc) => MonitorTold(id, facts, pc)
    case Remove(id, pc) => RemovalTold(id, facts, pc)
    case Offload(_, pc) => CycleTold(facts, pc)
  }

  ghost predicate AllTold(s: State) {
    && (forall k :: 0 <= k < |s.history| ==> s.history[k].actor < |s.tasks|)
    && (forall t :: 0 <= t < |s.tasks| ==> Told(s.tasks[t], OwnFacts(s.history, t)))
  }

  lemma OwnFactsAppend(history: seq<Item>, item: Item, t: nat)
    ensures OwnFacts(history + [item], t)
            == if item.actor == t then OwnFacts(history, t) + [item.fact] else OwnFacts(history, t)
  {
    assert (history + [item])[..|history|] == history;
  }

  lemma {:induction false} NoFactsYet(history: seq<Item>, t: nat)
    requires forall k :: 0 <= k < |history| ==> history[k].actor != t
    ensures OwnFacts(history, t) == []
  {
    if history == [] {
    } else {
      NoFactsYet(history[..|history| - 1], t);
    }
  }

  lemma ToldStep(task: Task, adapters: Adapters, o: Outcome, now: nat, facts: seq<Fact>)
    requires WellKeyed(adapters) && CanStep(task, adapters, o, now) && Told(task, facts)
    ensures var step := StepTask(task, adapters, o, now); Told(step.next, facts + [FactOf(adapters, step.effect)])
  {
    hide InstallTold, MonitorTold, RemovalTold, CycleTold;
    match task
    case Install(image, checksum, jobId, _) =>
      InstallToldStep(Request(image, checksum, jobId), task, adapters, o, now, facts);
    case Monitor(_, _) => MonitorToldStep(task, adapters, o, now, facts);
    case Remove(_, _) => RemovalToldStep(task, adapters, o, now, facts);
    case Offload(_, _) => CycleToldStep(task, adapters, o, now, facts);
  }

  // A task at its first step has no facts.
  lemma FirstStepTold(task: Task)
    requires match task
             case Install(_, _, _, pc) => pc == ChooseVictim
             case Monitor(_, pc) => pc == Waiting
             case Remove(_, pc) => pc == Lookup
             case Offload(_, pc) => pc == Snapshot
    ensures Told(task, [])
  {
  }

  lemma SpawnsWaiting(task: Task, adapters: Adapters, o: Outcome, now: nat)
    requires CanStep(task, adapters, o, now)
    ensures forall u :: 0 <= u < |StepTask(task, adapters, o, now).spawned| ==>
              StepTask(task, adapters, o, now).spawned[u].Monitor?
                && StepTask(task, adapters, o, now).spawned[u].mpc == Waiting
  {
  }

  lemma OthersTold(history: seq<Item>, item: Item, u: nat, task: Task)
    requires Told(task, OwnFacts(history, u)) && item.actor != u
    ensures Told(task, OwnFacts(history + [item], u))
  {
    hide Told;
    OwnFactsAppend(history, item, u);
  }

  // The step of one task, with the fact it leaves and the tasks it spawns.
  lemma TasksTold(tasks: seq<Task>, t: nat, next: Task, spawned: seq<Task>, history: seq<Item>, item: Item, u: nat)
    requires t < |tasks| && item.actor == t && u < |tasks| + |spawned|
    requires Told(next, OwnFacts(history, t) + [item.fact])
    requires u < |tasks| ==> Told(tasks[u], OwnFacts(history, u))
    requires forall k :: 0 <= k < |history| ==> history[k].actor < |tasks|
    requires forall v :: 0 <= v < |spawned| ==> spawned[v].Monitor? && spawned[v].mpc == Waiting
    ensures Told((tasks[t := next] + spawned)[u], OwnFacts(history + [item], u))
  {
    hide Told, OwnFacts;
    if u >= |tasks| {
      NoFactsYet(history + [item], u);
      FirstStepTold(spawned[u - |tasks|]);
    } else if u == t {
      OwnFactsAppend(history, item, t);
    } else {
      OthersTold(history, item, u, tasks[u]);
    }
  }

  lemma AllToldStep(s: State, t: nat, o: Outcome)
    requires WellKeyed(s.adapters) && AllTold(s) && t < |s.tasks| && CanStep(s.tasks[t], s.adapters, o, s.clock)
    ensures AllTold(Apply(s, Step(t, o)))
  {
    var step, s' := StepTask(s.tasks[t], s.adapters, o, s.clock), Apply(s, Step(t, o));
    var item := Item(t, s.clock, FactOf(s.adapters, step.effect));
    ToldStep(s.tasks[t], s.adapters, o, s.clock, OwnFacts(s.history, t));
    SpawnsWaiting(s.tasks[t], s.adapters, o, s.clock);
    hide StepTask, CanStep, Told, OwnFacts, FactOf, WellKeyed, AdaptersAfter;
    assert s'.history == s.history + [item] && s'.tasks == s.tasks[t := step.next] + step.spawned;
    forall u | 0 <= u < |s'.tasks| ensures Told(s'.tasks[u], OwnFacts(s'.history, u)) {
      TasksTold(s.tasks, t, step.next, step.spawned, s.history, item, u);
    }
  }

  lemma AllToldSubmit(s: State, a: Action)
    requires AllTold(s) && !a.Step?
    ensures AllTold(Apply(s, a))
  {
    hide Told, OwnFacts;
    var s' := Apply(s, a);
    forall u | 0 <= u < |s'.tasks| ensures Told(s'.tasks[u], OwnFacts(s'.history, u)) {
      if u >= |s.tasks| {
        NoFactsYet(s.history, u);
        FirstStepTold(s'.tasks[u]);
      }
    }
  }

  lemma {:induction false} AllToldAlways(s: State, actions: seq<Action>)
    requires LogRefinesMap(s) && AllTold(s) && IsRun(s, actions)
    ensures AllTold(After(s, actions))
    decreases |actions|
  {
    if actions == [] {
    } else {
      var a := actions[0];
      if a.Step? {
        AllToldStep(s, a.task, a.outcome);
        LogKept(s, a.task, StepTask(s.tasks[a.task], s.adapters, a.outcome, s.clock).effect);
      } else {
        AllToldSubmit(s, a);
      }
      hide AllTold, StepTask;
      AllToldAlways(Apply(s, a), actions[1..]);
    }
  }

  // -------- main results, for every run from the initial state --------

  lemma BegunTranscript(actions: seq<Action>, t: nat)
    requires IsRun(INITIAL, actions)
    requires var s := After(INITIAL, actions); t < |s.tasks| && s.tasks[t].Install? && s.tasks[t].ipc == PullImage
    ensures var s := After(INITIAL, actions); var task := s.tasks[t];
            IsBegunTranscript(Request(task.image, task.checksum, task.jobId), OwnFacts(s.history, t))
  {
    AllToldAlways(INITIAL, actions);
    var s := After(INITIAL, actions);
    assert Told(s.tasks[t], OwnFacts(s.history, t));
  }

  lemma InstallTranscript(actions: seq<Action>, t: nat)
    requires IsRun(INITIAL, actions)
    requires var s := After(INITIAL, actions); t < |s.tasks| && s.tasks[t].Install? && s.tasks[t].ipc == Returned
    ensures var s := After(INITIAL, actions); var task := s.tasks[t];
            IsInstallTranscript(Request(task.image, task.checksum, task.jobId), OwnFacts(s.history, t))
  {
    AllToldAlways(INITIAL, actions);
    var s := After(INITIAL, actions);
    assert Told(s.tasks[t], OwnFacts(s.history, t));
  }

  lemma MonitorTranscript(actions: seq<Action>, t: nat)
    requires IsRun(INITIAL, actions)
    requires var s := After(INITIAL, actions); t < |s.tasks| && s.tasks[t].Monitor? && s.tasks[t].mpc == Reported
    ensures var s := After(INITIAL, actions); IsMonitorTranscript(s.tasks[t].id, OwnFacts(s.history, t))
  {
    AllToldAlways(INITIAL, actions);
    var s := After(INITIAL, actions);
    assert Told(s.tasks[t], OwnFacts(s.history, t));
  }

  lemma RemovalTranscript(actions: seq<Action>, t: nat)
    requires IsRun(INITIAL, actions)
    requires var s := After(INITIAL, actions); t < |s.tasks| && s.tasks[t].Remove? && s.tasks[t].rpc.Removed?
    ensures var s := After(INITIAL, actions); var task := s.tasks[t];
            IsRemovalTranscript(task.id, OwnFacts(s.history, t), task.rpc.answer)
  {
    AllToldAlways(INITIAL, actions);
    var s := After(INITIAL, actions);
    assert Told(s.tasks[t], OwnFacts(s.history, t));
  }

  lemma CycleEnds(facts: seq<Fact>)
    requires CycleTold(facts, MarkOffloading([]))
    ensures IsCycleTranscript(facts)
  {
    hide AllOffloaded;
    var n: nat, k: nat :| CycleAt(facts, MarkOffloading([]), n, k);
    assert facts[0].entries[..n] == facts[0].entries && facts[1..k] == facts[1..];
  }

  lemma CycleTranscript(actions: seq<Action>, t: nat)
    requires IsRun(INITIAL, actions)
    requires var s := After(INITIAL, actions);
             t < |s.tasks| && s.tasks[t].Offload? && s.tasks[t].opc == MarkOffloading([])
    ensures IsCycleTranscript(OwnFacts(After(INITIAL, actions).history, t))
  {
    AllToldAlways(INITIAL, actions);
    var s := After(INITIAL, actions);
    assert Told(s.tasks[t], OwnFacts(s.history, t));
    hide CycleTold, IsCycleTranscript, OwnFacts, After, IsRun;
    CycleEnds(OwnFacts(s.history, t));
  }
}
