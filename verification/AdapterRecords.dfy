/**
 What the log says about the contents of the adapter map: who created an entry with which
 image, when it last stopped, why it last failed, and what every task has seen of it.
 */
module AdapterRecords {
  import opened Wrappers
  import opened AdapterId
  import opened StateManager
  import opened AdapterTasks
  import opened AdapterHistory
  import opened Transcripts

  // The entry with which the adapter was last created.
  function LastCreated(history: seq<Item>, id: string): Option<AdapterEntry> {
    if history == [] then None
    else
      var fact := history[|history| - 1].fact;
      if fact.Created? && fact.entry.adapterId == id then Some(fact.entry)
        else LastCreated(history[..|history| - 1], id)
  }

  // The latest event, since its creation, by which the adapter entered a state.
  function LastInto(history: seq<Item>, id: string, state: AdapterState): (r: Option<Item>)
    ensures r.Some? ==> r.value.fact.Moved? && r.value.fact.id == id && r.value.fact.newState == state
  {
    if history == [] then None
    else
      var last := history[|history| - 1];
      if last.fact.Created? && last.fact.entry.adapterId == id then None
      else if last.fact.Moved? && last.fact.id == id && last.fact.newState == state then Some(last)
      else LastInto(history[..|history| - 1], id, state)
  }

  // An entry is the one last created, in the state last entered, with the instant of its last
  // stop and the message of its last failure.
  predicate EntryMatches(e: AdapterEntry, history: seq<Item>) {
    var id := e.adapterId;
    var created, stop, failure := LastCreated(history, id), LastInto(history, id, Stopped),
      LastInto(history, id, Error);
    && created.Some? && e.imageRef == created.value.imageRef && e.checksum == created.value.checksum
    && e.jobId == created.value.jobId
    && LoggedState(history, id) == Some(e.state)
    && e.stoppedAt == (if stop.Some? then Some(stop.value.time) else None)
    && e.errorMessage == (if failure.Some? then failure.value.fact.errorMsg else None)
  }

  ghost predicate Recorded(s: State) {
    && LogRefinesMap(s)
    && forall id :: id in s.adapters ==> EntryMatches(s.adapters[id], s.history)
  }

  // A new entry has never stopped nor failed.
  predicate IsFresh(effect: Effect) {
    match effect
    case Put(e) => e.state == Unknown && e.stoppedAt == None && e.errorMessage == None
    case _ => true
  }

  lemma StepsFresh(task: Task, adapters: Adapters, o: Outcome, now: nat)
    requires CanStep(task, adapters, o, now)
    ensures IsFresh(StepTask(task, adapters, o, now).effect)
  {
  }

  lemma EntryKept(s: State, actor: nat, effect: Effect, id: string)
    requires Recorded(s) && IsFresh(effect) && id in AdaptersAfter(s.adapters, effect, s.clock)
    ensures EntryMatches(AdaptersAfter(s.adapters, effect, s.clock)[id], HistoryAfter(s, actor, effect))
  {
    var history := HistoryAfter(s, actor, effect);
    assert history[..|history| - 1] == s.history;
    if id in s.adapters {
      assert EntryMatches(s.adapters[id], s.history);
    }
  }

  lemma RecordedKept(s: State, actor: nat, effect: Effect)
    requires Recorded(s) && IsFresh(effect)
    ensures Recorded(State(AdaptersAfter(s.adapters, effect, s.clock), s.tasks, HistoryAfter(s, actor, effect),
            s.clock))
  {
    LogKept(s, actor, effect);
    hide LogRefinesMap, EntryMatches, HistoryAfter, AdaptersAfter;
    var adapters := AdaptersAfter(s.adapters, effect, s.clock);
    forall id | id in adapters ensures EntryMatches(adapters[id], HistoryAfter(s, actor, effect)) {
      EntryKept(s, actor, effect, id);
    }
  }

  // -------- what tasks have seen --------

  // The adapter has been stopped for the timeout.
  predicate IsDue(history: seq<Item>, id: string, timeout: nat, now: nat) {
    var stop := LastInto(history, id, Stopped);
    LoggedState(history, id) == Some(Stopped) && stop.Some? && now - stop.value.time >= timeout
  }

  ghost predicate Lists(entries: seq<AdapterEntry>, id: string) {
    exists i :: 0 <= i < |entries| && entries[i].adapterId == id
  }

  // What a task is shown: an install a running adapter if there is one, a removal the adapter
  // it asks for, and a cycle exactly the adapters that are due, each once.
  ghost predicate SeesExactly(task: Task, entries: seq<AdapterEntry>, before: seq<Item>, now: nat) {
    && (forall i :: 0 <= i < |entries| ==> EntryMatches(entries[i], before))
    && match task
       case Install(_, _, _, _) =>
         if entries == [] then forall id :: LoggedState(before, id) != Some(Running)
         else |entries| == 1 && entries[0].state == Running
       case Monitor(_, _) => true
       case Remove(id, _) =>
         if LoggedState(before, id) == None then entries == [] else |entries| == 1 && entries[0].adapterId == id
       case Offload(timeout, _) =>
         && (forall i, j :: 0 <= i < j < |entries| ==> entries[i].adapterId != entries[j].adapterId)
         && (forall id :: Lists(entries, id) <==> IsDue(before, id, timeout, now))
  }

  lemma CandidatesDue(s: State, entries: seq<AdapterEntry>, timeout: nat, id: string)
    requires Recorded(s) && IsCandidateList(s.adapters, entries, timeout, s.clock)
    ensures Lists(entries, id) <==> IsDue(s.history, id, timeout, s.clock)
  {
    assert LoggedState(s.history, id) == CurrentState(s.adapters, id);
    if id in s.adapters {
      assert EntryMatches(s.adapters[id], s.history);
      if IsCandidate(s.adapters[id], timeout, s.clock) {
        assert s.adapters[id] in entries;
        var i :| 0 <= i < |entries| && entries[i] == s.adapters[id];
        assert entries[i].adapterId == id;
      }
    }
  }

  lemma SeenIsPresent(task: Task, adapters: Adapters, o: Outcome, now: nat)
    requires WellKeyed(adapters) && CanStep(task, adapters, o, now)
    ensures var effect := StepTask(task, adapters, o, now).effect;
            effect.Read? ==>
              forall i :: 0 <= i < |effect.entries| ==>
                var e := effect.entries[i]; e.adapterId in adapters && adapters[e.adapterId] == e
  {
  }

  lemma SightExact(s: State, t: nat, o: Outcome)
    requires Recorded(s) && t < |s.tasks| && CanStep(s.tasks[t], s.adapters, o, s.clock)
    ensures var effect := StepTask(s.tasks[t], s.adapters, o, s.clock).effect;
            effect.Read? ==> SeesExactly(s.tasks[t], effect.entries, s.history, s.clock)
  {
    var effect := StepTask(s.tasks[t], s.adapters, o, s.clock).effect;
    if effect.Read? {
      SeenIsPresent(s.tasks[t], s.adapters, o, s.clock);
      forall id ensures LoggedState(s.history, id) == CurrentState(s.adapters, id) {
      }
      match s.tasks[t]
      case Install(_, _, _, _) =>
      case Monitor(_, _) =>
      case Remove(_, _) =>
      case Offload(timeout, _) =>
        forall id ensures Lists(effect.entries, id) <==> IsDue(s.history, id, timeout, s.clock) {
          CandidatesDue(s, effect.entries, timeout, id);
        }
    }
  }

  ghost predicate SightsExact(s: State) {
    forall k :: 0 <= k < |s.history| ==>
      && s.history[k].actor < |s.tasks|
      && (s.history[k].fact.Saw? ==>
            SeesExactly(s.tasks[s.history[k].actor], s.history[k].fact.entries, s.history[..k], s.history[k].time))
  }

  // What a task is shown depends on its kind and arguments only.
  lemma SightOfNext(task: Task, adapters: Adapters, o: Outcome, now: nat, entries: seq<AdapterEntry>, before: seq<Item>,
                    time: nat)
    requires CanStep(task, adapters, o, now) && SeesExactly(task, entries, before, time)
    ensures SeesExactly(StepTask(task, adapters, o, now).next, entries, before, time)
  {
    hide EntryMatches, IsDue, Lists, LoggedState;
  }

  lemma SightsStep(s: State, t: nat, o: Outcome)
    requires Recorded(s) && SightsExact(s) && t < |s.tasks| && CanStep(s.tasks[t], s.adapters, o, s.clock)
    ensures SightsExact(Apply(s, Step(t, o)))
  {
    var step, s' := StepTask(s.tasks[t], s.adapters, o, s.clock), Apply(s, Step(t, o));
    SightExact(s, t, o);
    forall k | 0 <= k < |s'.history|
      ensures s'.history[k].actor < |s'.tasks|
      ensures s'.history[k].fact.Saw? ==>
                SeesExactly(s'.tasks[s'.history[k].actor], s'.history[k].fact.entries, s'.history[..k],
                  s'.history[k].time)
    {
      hide CanStep, SeesExactly, Recorded;
      if k < |s.history| {
        assert s'.history[k] == s.history[k] && s'.history[..k] == s.history[..k];
        if s.history[k].actor == t && s.history[k].fact.Saw? {
          SightOfNext(s.tasks[t], s.adapters, o, s.clock, s.history[k].fact.entries, s.history[..k], s.history[k].time);
        }
      } else {
        assert s'.history[..k] == s.history;
        if s'.history[k].fact.Saw? {
          SightOfNext(s.tasks[t], s.adapters, o, s.clock, step.effect.entries, s.history, s.clock);
        }
      }
    }
  }

  lemma SightsSubmit(s: State, a: Action)
    requires SightsExact(s) && !a.Step?
    ensures SightsExact(Apply(s, a))
  {
    hide SeesExactly;
    var s' := Apply(s, a);
    assert forall k :: 0 <= k < |s.history| ==> s'.tasks[s.history[k].actor] == s.tasks[s.history[k].actor];
  }

  lemma {:induction false} RecordsAlways(s: State, actions: seq<Action>)
    requires Recorded(s) && SightsExact(s) && IsRun(s, actions)
    ensures Recorded(After(s, actions)) && SightsExact(After(s, actions))
    decreases |actions|
  {
    if actions == [] {
    } else {
      var a := actions[0];
      if a.Step? {
        SightsStep(s, a.task, a.outcome);
        StepsFresh(s.tasks[a.task], s.adapters, a.outcome, s.clock);
        RecordedKept(s, a.task, StepTask(s.tasks[a.task], s.adapters, a.outcome, s.clock).effect);
      } else {
        SightsSubmit(s, a);
      }
      hide SightsExact, EntryMatches, LogRefinesMap, StepTask;
      RecordsAlways(Apply(s, a), actions[1..]);
    }
  }

  // -------- removals and transitions that missed --------

  // A transition names the state that the adapter left; one that missed found no adapter,
  // and after a removal there is none.
  ghost predicate FactAgrees(history: seq<Item>, k: nat)
    requires k < |history|
  {
    match history[k].fact
    case Moved(id, oldState, _, _) => LoggedState(history[..k], id) == Some(oldState)
    case Missed(id, _) => LoggedState(history[..k], id) == None && LoggedState(history[..k + 1], id) == None
    case Dropped(id) => LoggedState(history[..k], id).Some? && LoggedState(history[..k + 1], id) == None
    case _ => true
  }

  lemma NewFactAgrees(s: State, actor: nat, effect: Effect)
    requires LogRefinesMap(s)
    ensures FactAgrees(HistoryAfter(s, actor, effect), |s.history|)
  {
    var history := HistoryAfter(s, actor, effect);
    assert history[..|s.history|] == s.history && history[..|history|] == history;
    assert forall id :: LoggedState(s.history, id) == CurrentState(s.adapters, id);
    assert history[..|history| - 1] == s.history;
  }

  ghost predicate AllAgree(history: seq<Item>) {
    forall k :: 0 <= k < |history| ==> FactAgrees(history, k)
  }

  lemma AllAgreeKept(s: State, actor: nat, effect: Effect)
    requires LogRefinesMap(s) && AllAgree(s.history)
    ensures AllAgree(HistoryAfter(s, actor, effect))
  {
    NewFactAgrees(s, actor, effect);
    hide LoggedState;
    var history := HistoryAfter(s, actor, effect);
    forall k | 0 <= k < |history| ensures FactAgrees(history, k) {
      if k < |s.history| {
        assert FactAgrees(s.history, k);
        assert history[k] == s.history[k] && history[..k] == s.history[..k] && history[..k + 1] == s.history[..k + 1];
      }
    }
  }

  lemma {:induction false} FactsAgreeAlways(s: State, actions: seq<Action>)
    requires LogRefinesMap(s) && AllAgree(s.history) && IsRun(s, actions)
    ensures AllAgree(After(s, actions).history)
    decreases |actions|
  {
    if actions == [] {
    } else {
      var a := actions[0];
      if a.Step? {
        var effect := StepTask(s.tasks[a.task], s.adapters, a.outcome, s.clock).effect;
        AllAgreeKept(s, a.task, effect);
        LogKept(s, a.task, effect);
      }
      hide AllAgree, LogRefinesMap, StepTask;
      FactsAgreeAlways(Apply(s, a), actions[1..]);
    }
  }

  // -------- main results, for every run from the initial state --------

  // The contents of every entry, from the log alone.
  lemma EntriesMatchLog(actions: seq<Action>, id: string)
    requires IsRun(INITIAL, actions) && id in After(INITIAL, actions).adapters
    ensures var s := After(INITIAL, actions); s.adapters[id].adapterId == id && EntryMatches(s.adapters[id], s.history)
  {
    RecordsAlways(INITIAL, actions);
  }

  // What every task has ever been shown was exactly what it asked for at that moment.
  lemma SightsAreExact(actions: seq<Action>, k: nat)
    requires IsRun(INITIAL, actions)
    requires var s := After(INITIAL, actions); k < |s.history| && s.history[k].fact.Saw?
    ensures var s := After(INITIAL, actions); var item := s.history[k];
            item.actor < |s.tasks| && SeesExactly(s.tasks[item.actor], item.fact.entries, s.history[..k], item.time)
  {
    RecordsAlways(INITIAL, actions);
  }

  // Where a task's own fact stands in the log.
  lemma {:induction false} OwnFactAt(history: seq<Item>, t: nat, j: nat) returns (k: nat)
    requires j < |OwnFacts(history, t)|
    ensures k < |history| && history[k].actor == t && history[k].fact == OwnFacts(history, t)[j]
    ensures |OwnFacts(history[..k], t)| == j
  {
    var init := history[..|history| - 1];
    if j < |OwnFacts(init, t)| {
      k := OwnFactAt(init, t, j);
      assert init[..k] == history[..k];
    } else {
      k := |history| - 1;
    }
  }

  lemma {:induction false} OwnFactsGrow(history: seq<Item>, t: nat, k: nat)
    requires k <= |history|
    ensures |OwnFacts(history[..k], t)| <= |OwnFacts(history, t)|
  {
    if k == |history| {
      assert history[..k] == history;
    } else {
      var init := history[..|history| - 1];
      assert init[..k] == history[..k];
      OwnFactsGrow(init, t, k);
    }
  }

  // The task has removed the image of an entry it had been shown, and at some later moment
  // the adapter was gone.
  ghost predicate GoneAfterRemoval(history: seq<Item>, t: nat, e: AdapterEntry) {
    && HasSeen(history, t, e)
    && exists k, m :: 0 <= k < m <= |history| && history[k].actor == t
                      && history[k].fact == Called(Rmi(e.imageRef), Success)
                        && LoggedState(history[..m], e.adapterId) == None
  }

  // An own removal that follows an own call to remove the image.
  lemma RemovalMeansGone(history: seq<Item>, t: nat, i: nat, j: nat, e: AdapterEntry)
    requires AllAgree(history) && HasSeen(history, t, e)
    requires i < j < |OwnFacts(history, t)|
    requires OwnFacts(history, t)[i] == Called(Rmi(e.imageRef), Success)
             && IsRemoval(OwnFacts(history, t)[j], e.adapterId)
    ensures GoneAfterRemoval(history, t, e)
  {
    var k := OwnFactAt(history, t, i);
    var m := OwnFactAt(history, t, j);
    if m <= k {
      assert history[..k][..m] == history[..m];
      OwnFactsGrow(history[..k], t, m);
    }
    assert FactAgrees(history, m);
    assert LoggedState(history[..m + 1], e.adapterId) == None;
  }

  lemma FirstSeen(history: seq<Item>, t: nat, e: AdapterEntry)
    requires OwnFacts(history, t) != [] && OwnFacts(history, t)[0].Saw? && e in OwnFacts(history, t)[0].entries
    ensures HasSeen(history, t, e)
  {
    var k := OwnFactAt(history, t, 0);
  }

  // A removal that has answered Ok has removed container and image of the entry it was
  // shown, and then the adapter was gone.
  lemma RemovedMeansGone(actions: seq<Action>, t: nat)
    requires IsRun(INITIAL, actions)
    requires var s := After(INITIAL, actions);
             t < |s.tasks| && s.tasks[t].Remove? && s.tasks[t].rpc.Removed? && s.tasks[t].rpc.answer.Ok?
    ensures var s := After(INITIAL, actions);
            exists e: AdapterEntry :: e.adapterId == s.tasks[t].id && GoneAfterRemoval(s.history, t, e)
  {
    RemovalTranscript(actions, t);
    FactsAgreeAlways(INITIAL, actions);
    var s := After(INITIAL, actions);
    var facts := OwnFacts(s.history, t);
    var e, n := facts[0].entries[0], |facts|;
    FirstSeen(s.history, t, e);
    RemovalMeansGone(s.history, t, n - 2, n - 1, e);
  }

  lemma {:induction false} EntryPart(entries: seq<AdapterEntry>, facts: seq<Fact>, i: nat) returns (a: nat, b: nat)
    requires AllOffloaded(entries, facts) && i < |entries|
    ensures a <= b <= |facts| && EntryOffloaded(entries[i], facts[a..b])
    decreases |entries|
  {
    hide EntryOffloaded;
    var last := |entries| - 1;
    var k :| 0 <= k <= |facts| && AllOffloaded(entries[..last], facts[..k])
      && EntryOffloaded(entries[last], facts[k..]);
    if i == last {
      a, b := k, |facts|;
      assert facts[a..b] == facts[k..];
    } else {
      a, b := EntryPart(entries[..last], facts[..k], i);
      assert facts[..k][a..b] == facts[a..b];
    }
  }

  // The task's own call to remove the container or the image of the entry has failed.
  ghost predicate RemovalHasFailed(history: seq<Item>, t: nat, e: AdapterEntry) {
    exists k :: 0 <= k < |history| && history[k].actor == t && history[k].fact.Called?
      && history[k].fact.outcome.Failed?
                && history[k].fact.call in {Rm(e.adapterId), Rmi(e.imageRef)}
  }

  // What has become of one entry, told from the facts about it.
  lemma PartOutcome(history: seq<Item>, t: nat, e: AdapterEntry, a: nat, b: nat)
    requires AllAgree(history) && HasSeen(history, t, e)
    requires a <= b <= |OwnFacts(history, t)| && EntryOffloaded(e, OwnFacts(history, t)[a..b])
    ensures GoneAfterRemoval(history, t, e) || RemovalHasFailed(history, t, e)
  {
    hide AllAgree, HasSeen, GoneAfterRemoval, OwnFacts;
    var facts := OwnFacts(history, t);
    if b - a == 3 {
      var k := OwnFactAt(history, t, a + 1);
    } else if facts[a + 2] == Called(Rmi(e.imageRef), Success) {
      RemovalMeansGone(history, t, a + 2, a + 3, e);
    } else {
      var k := OwnFactAt(history, t, a + 2);
    }
  }

  lemma ListedOutcome(history: seq<Item>, t: nat, i: nat)
    requires AllAgree(history) && IsCycleTranscript(OwnFacts(history, t))
    requires i < |OwnFacts(history, t)[0].entries|
    ensures var e := OwnFacts(history, t)[0].entries[i];
            GoneAfterRemoval(history, t, e) || RemovalHasFailed(history, t, e)
  {
    hide AllAgree, HasSeen, GoneAfterRemoval, RemovalHasFailed, OwnFacts, EntryOffloaded, AllOffloaded;
    var facts := OwnFacts(history, t);
    var e := facts[0].entries[i];
    var a, b := EntryPart(facts[0].entries, facts[1..], i);
    assert facts[1..][a..b] == facts[1 + a..1 + b];
    FirstSeen(history, t, e);
    PartOutcome(history, t, e, 1 + a, 1 + b);
  }

  // A finished cycle has, for each adapter it listed, removed container and image, and then
  // the adapter was gone, or one of the two calls has failed.
  lemma CycleOutcome(actions: seq<Action>, t: nat, i: nat)
    requires IsRun(INITIAL, actions)
    requires var s := After(INITIAL, actions);
             t < |s.tasks| && s.tasks[t].Offload? && s.tasks[t].opc == MarkOffloading([])
    requires var facts := OwnFacts(After(INITIAL, actions).history, t);
             facts != [] && facts[0].Saw? && i < |facts[0].entries|
    ensures var s := After(INITIAL, actions); var e := OwnFacts(s.history, t)[0].entries[i];
            GoneAfterRemoval(s.history, t, e) || RemovalHasFailed(s.history, t, e)
  {
    CycleTranscript(actions, t);
    FactsAgreeAlways(INITIAL, actions);
    hide AllAgree, GoneAfterRemoval, RemovalHasFailed, OwnFacts, IsCycleTranscript;
    ListedOutcome(After(INITIAL, actions).history, t, i);
  }
}
