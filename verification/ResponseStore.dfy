/**
 The cloud gateway's store of command responses with cancellable timeouts.

 A timer of the Go runtime may have fired and be waiting for the store's mutex when it is
 stopped, a response may arrive before its timer is started, and the same command id may be
 started repeatedly.  Every method of the store, and the timer callback, is one atomic step.
 */
module ResponseStore {
  import opened Wrappers

  datatype CommandResponse = CommandResponse(commandId: string, status: string, reason: string)

  function TimeoutResponse(id: string): CommandResponse {
    CommandResponse(id, "timeout", "")
  }

  // Armed until it expires or is stopped; Fired while its callback waits for the mutex.
  datatype TimerState = Armed | Fired | Finished | Cancelled

  datatype Timer = Timer(commandId: string, state: TimerState)

  predicate IsLive(timer: Timer) {
    timer.state == Armed || timer.state == Fired
  }

  // `runtime` holds every timer ever created; a handle is an index into it.
  datatype State = State(responses: map<string, CommandResponse>, timers: map<string, nat>, runtime: seq<Timer>)

  const EMPTY := State(map[], map[], [])

  // Stopping a timer has no effect once it has fired.
  function Stopped(runtime: seq<Timer>, handle: nat): (r: seq<Timer>)
    requires handle < |runtime|
    ensures |r| == |runtime|
  {
    if runtime[handle].state == Armed then runtime[handle := runtime[handle].(state := Cancelled)] else runtime
  }

  function Stored(s: State, resp: CommandResponse): State {
    var id := resp.commandId;
    State(s.responses[id := resp],
          s.timers - {id},
          if id in s.timers && s.timers[id] < |s.runtime| then Stopped(s.runtime, s.timers[id]) else s.runtime)
  }

  function Started(s: State, id: string): State {
    State(s.responses, s.timers[id := |s.runtime|], s.runtime + [Timer(id, Armed)])
  }

  function CalledBack(s: State, handle: nat): State
    requires handle < |s.runtime|
  {
    var id := s.runtime[handle].commandId;
    State(if id in s.responses then s.responses else s.responses[id := TimeoutResponse(id)],
          s.timers - {id},
          s.runtime[handle := s.runtime[handle].(state := Finished)])
  }

  ghost predicate Consistent(s: State) {
    // registered timers are live and registered under their own id
    && (forall id :: id in s.timers ==>
      s.timers[id] < |s.runtime| && s.runtime[s.timers[id]].commandId == id && IsLive(s.runtime[s.timers[id]]))
    // a timer that is no longer live has left a response behind
    && (forall h :: 0 <= h < |s.runtime| && !IsLive(s.runtime[h]) ==> s.runtime[h].commandId in s.responses)
  }

  class Store {
    var responses: map<string, CommandResponse>
    var timers: map<string, nat>
    // The timers of the Go runtime, which the store creates and stops.
    var runtime: seq<Timer>

    function Abstract(): State
      reads this
    {
      State(responses, timers, runtime)
    }

    ghost predicate Valid()
      reads this
    {
      Consistent(Abstract())
    }

    constructor ()
      ensures Valid() && Abstract() == EMPTY
    {
      responses, timers, runtime := map[], map[], [];
    }

    method StoreResponse(resp: CommandResponse)
      requires Valid()
      modifies this
      ensures Valid() && Abstract() == Stored(old(Abstract()), resp)
    {
      responses := responses[resp.commandId := resp];
      if resp.commandId in timers {
        var handle := timers[resp.commandId];
        if runtime[handle].state == Armed {
          runtime := runtime[handle := runtime[handle].(state := Cancelled)];
        }
      }
      timers := timers - {resp.commandId};
    }

    method GetResponse(commandId: string) returns (r: Option<CommandResponse>)
      ensures r == if commandId in responses then Some(responses[commandId]) else None
    {
      if commandId !in responses {
        return None;
      }
      return Some(responses[commandId]);
    }

    method StartTimeout(commandId: string)
      requires Valid()
      modifies this
      ensures Valid() && Abstract() == Started(old(Abstract()), commandId)
    {
      runtime := runtime + [Timer(commandId, Armed)];
      timers := timers[commandId := |runtime| - 1];
    }

    // The function passed to the runtime when the timer was created.
    method TimerCallback(handle: nat)
      requires Valid() && handle < |runtime| && runtime[handle].state == Fired
      modifies this
      ensures Valid() && Abstract() == CalledBack(old(Abstract()), handle)
      ensures var id := old(runtime)[handle].commandId;
              && id in responses
              && if id in old(responses) then responses[id] == old(responses)[id]
                 else
                   && responses[id].commandId == id && responses[id].status == "timeout" && responses[id].reason == ""
    {
      var id := runtime[handle].commandId;
      if id !in responses {
        responses := responses[id := CommandResponse(id, "timeout", "")];
      }
      timers := timers - {id};
      runtime := runtime[handle := runtime[handle].(state := Finished)];
    }
  }

  // -------- runs --------

  datatype Action =
    | Start(id: string)
    | Deliver(resp: CommandResponse)
    | Expire(handle: nat)
    | Callback(handle: nat)

  predicate Enabled(s: State, a: Action) {
    match a
    case Expire(h) => h < |s.runtime| && s.runtime[h].state == Armed
    case Callback(h) => h < |s.runtime| && s.runtime[h].state == Fired
    case _ => true
  }

  function Apply(s: State, a: Action): State
    requires Enabled(s, a)
  {
    match a
    case Start(id) => Started(s, id)
    case Deliver(resp) => Stored(s, resp)
    case Expire(h) => s.(runtime := s.runtime[h := s.runtime[h].(state := Fired)])
    case Callback(h) => CalledBack(s, h)
  }

  // Runs are read from the end, as the answers below depend on the latest actions.
  predicate IsRun(actions: seq<Action>)
    decreases |actions|, 0
  {
    actions == []
      || (IsRun(actions[..|actions| - 1]) && Enabled(After(actions[..|actions| - 1]), actions[|actions| - 1]))
  }

  function After(actions: seq<Action>): State
    requires IsRun(actions)
    decreases |actions|, 1
  {
    if actions == [] then EMPTY else Apply(After(actions[..|actions| - 1]), actions[|actions| - 1])
  }

  lemma RunOn(actions: seq<Action>, a: Action)
    requires IsRun(actions) && Enabled(After(actions), a)
    ensures IsRun(actions + [a]) && After(actions + [a]) == Apply(After(actions), a)
  {
    assert (actions + [a])[..|actions + [a]| - 1] == actions;
  }

  // The id a timer was started for, from the actions alone.
  function StartedIds(actions: seq<Action>): seq<string> {
    if actions == [] then []
    else
      var last := actions[|actions| - 1];
      StartedIds(actions[..|actions| - 1]) + if last.Start? then [last.id] else []
  }

  // -------- what clients see --------

  // The response last delivered for an id.
  function LastDelivered(actions: seq<Action>, id: string): Option<CommandResponse> {
    if actions == [] then None
    else
      var last := actions[|actions| - 1];
      if last.Deliver? && last.resp.commandId == id then Some(last.resp)
        else LastDelivered(actions[..|actions| - 1], id)
  }

  // Some timer started for the id has run its callback.
  predicate TimedOut(actions: seq<Action>, id: string) {
    actions != [] &&
    var init, last := actions[..|actions| - 1], actions[|actions| - 1];
    TimedOut(init, id) || (last.Callback? && last.handle < |StartedIds(init)| && StartedIds(init)[last.handle] == id)
  }

  // A delivered response always has priority, in whatever order it and the timeout came.
  function Answer(actions: seq<Action>, id: string): Option<CommandResponse> {
    if LastDelivered(actions, id).Some? then LastDelivered(actions, id)
    else if TimedOut(actions, id) then Some(TimeoutResponse(id))
    else None
  }

  function Lookup(s: State, id: string): Option<CommandResponse> {
    if id in s.responses then Some(s.responses[id]) else None
  }

  lemma {:induction false} HandlesAreStarts(actions: seq<Action>)
    requires IsRun(actions)
    ensures |After(actions).runtime| == |StartedIds(actions)|
    ensures forall h :: 0 <= h < |StartedIds(actions)| ==> After(actions).runtime[h].commandId == StartedIds(actions)[h]
  {
    if actions == [] {
    } else {
      HandlesAreStarts(actions[..|actions| - 1]);
    }
  }

  // In every interleaving a lookup answers the last delivered response, or the timeout if
  // none was delivered and a timer ran out, or nothing.
  lemma {:induction false} LookupIsAnswer(actions: seq<Action>, id: string)
    requires IsRun(actions)
    ensures Lookup(After(actions), id) == Answer(actions, id)
  {
    if actions == [] {
    } else {
      LookupIsAnswer(actions[..|actions| - 1], id);
      HandlesAreStarts(actions[..|actions| - 1]);
    }
  }

  // A command that timed out without a response is reported as such.
  lemma TimeoutIsReported(actions: seq<Action>, id: string)
    requires IsRun(actions) && LastDelivered(actions, id) == None && TimedOut(actions, id)
    ensures var r := Lookup(After(actions), id);
            r.Some? && r.value.commandId == id && r.value.status == "timeout" && r.value.reason == ""
  {
    LookupIsAnswer(actions, id);
  }

  predicate Delivers(actions: seq<Action>, k: nat, id: string)
    requires k < |actions|
  {
    actions[k].Deliver? && actions[k].resp.commandId == id
  }

  // A response is the last one that was delivered for the command.
  lemma {:induction false} DeliveredMeans(actions: seq<Action>, id: string, resp: CommandResponse)
    ensures LastDelivered(actions, id) == Some(resp) <==>
            exists k :: 0 <= k < |actions| && actions[k] == Deliver(resp) && resp.commandId == id
                        && forall j :: k < j < |actions| ==> !Delivers(actions, j, id)
  {
    if actions == [] {
    } else {
      var last := |actions| - 1;
      var init := actions[..last];
      DeliveredMeans(init, id, resp);
      if Delivers(actions, last, id) {
        assert actions[last] == Deliver(resp) <==> LastDelivered(actions, id) == Some(resp);
      } else {
        assert forall j :: 0 <= j < last ==> Delivers(init, j, id) == Delivers(actions, j, id);
        assert forall k :: 0 <= k < last ==> init[k] == actions[k];
      }
    }
  }

  // A command has timed out when the callback of a timer started for it has ended.
  lemma {:induction false} TimedOutMeans(actions: seq<Action>, id: string)
    ensures TimedOut(actions, id) <==>
            exists k :: 0 <= k < |actions| && actions[k].Callback? && actions[k].handle < |StartedIds(actions[..k])|
                        && StartedIds(actions[..k])[actions[k].handle] == id
  {
    if actions == [] {
    } else {
      var last := |actions| - 1;
      var init := actions[..last];
      TimedOutMeans(init, id);
      assert forall k :: 0 <= k < last ==> init[k] == actions[k] && init[..k] == actions[..k];
      hide StartedIds;
    }
  }

  // -------- completeness --------

  lemma ConsistentKept(s: State, a: Action)
    requires Consistent(s) && Enabled(s, a)
    ensures Consistent(Apply(s, a))
  {
  }

  lemma {:induction false} ConsistentAlways(actions: seq<Action>)
    requires IsRun(actions)
    ensures Consistent(After(actions))
  {
    if actions == [] {
    } else {
      ConsistentAlways(actions[..|actions| - 1]);
      ConsistentKept(After(actions[..|actions| - 1]), actions[|actions| - 1]);
    }
  }

  lemma {:induction false} StartIsRecorded(actions: seq<Action>, id: string)
    requires Start(id) in actions
    ensures id in StartedIds(actions)
  {
    var init, last := actions[..|actions| - 1], actions[|actions| - 1];
    if last != Start(id) {
      assert Start(id) in init;
      StartIsRecorded(init, id);
    }
  }

  // At every moment each started command has a response or a live timer.
  lemma EveryStartCovered(actions: seq<Action>, id: string)
    requires IsRun(actions) && Start(id) in actions
    ensures var s := After(actions);
            || id in s.responses
            || exists h :: 0 <= h < |s.runtime| && s.runtime[h].commandId == id && IsLive(s.runtime[h])
  {
    StartIsRecorded(actions, id);
    HandlesAreStarts(actions);
    ConsistentAlways(actions);
    var h :| 0 <= h < |StartedIds(actions)| && StartedIds(actions)[h] == id;
    assert After(actions).runtime[h].commandId == id;
  }

  // Once no timer is live, every started command is answered and no timer is registered.
  lemma QuiescentIsComplete(actions: seq<Action>)
    requires IsRun(actions) && forall h :: 0 <= h < |After(actions).runtime| ==> !IsLive(After(actions).runtime[h])
    ensures After(actions).timers == map[]
    ensures forall id :: Start(id) in actions ==> Answer(actions, id).Some?
  {
    ConsistentAlways(actions);
    forall id | Start(id) in actions ensures Answer(actions, id).Some? {
      EveryStartCovered(actions, id);
      LookupIsAnswer(actions, id);
    }
  }

  // -------- cancellation --------

  // No timer for the id can expire any more.
  ghost predicate NoneArmed(s: State, id: string) {
    forall h :: 0 <= h < |s.runtime| && s.runtime[h].commandId == id ==> s.runtime[h].state != Armed
  }

  // The registered timer is the only armed one for its id.
  ghost predicate OnlyRegisteredArmed(s: State, id: string) {
    forall h :: 0 <= h < |s.runtime| && s.runtime[h].commandId == id && s.runtime[h].state == Armed ==>
      id in s.timers && s.timers[id] == h
  }

  ghost predicate StartedOnce(actions: seq<Action>, id: string) {
    forall i, j :: 0 <= i < j < |StartedIds(actions)| ==>
      !(StartedIds(actions)[i] == id && StartedIds(actions)[j] == id)
  }

  ghost predicate IsRegistered(s: State, id: string, h: nat) {
    id in s.timers && s.timers[id] == h
  }

  // What one step does to a timer of the id.
  lemma TimerStep(s: State, a: Action, id: string, h: nat)
    requires Consistent(s) && Enabled(s, a) && h < |s.runtime| && s.runtime[h].commandId == id
    ensures var s' := Apply(s, a); var delivers := a.Deliver? && a.resp.commandId == id;
            && h < |s'.runtime| && s'.runtime[h].commandId == id
            && (IsRegistered(s', id, h) <==>
                  IsRegistered(s, id, h) && !delivers && a != Start(id)
                    && !(a.Callback? && s.runtime[a.handle].commandId == id))
            && (s'.runtime[h].state == Armed <==>
                  s.runtime[h].state == Armed && a != Expire(h) && !(delivers && IsRegistered(s, id, h)))
  {
  }

  lemma {:induction false} SingleStartRegistered(actions: seq<Action>, id: string)
    requires IsRun(actions) && StartedOnce(actions, id)
    ensures OnlyRegisteredArmed(After(actions), id)
  {
    if actions == [] {
    } else {
      var init, last := actions[..|actions| - 1], actions[|actions| - 1];
      assert forall i :: 0 <= i < |StartedIds(init)| ==> StartedIds(actions)[i] == StartedIds(init)[i];
      SingleStartRegistered(init, id);
      HandlesAreStarts(actions);
      HandlesAreStarts(init);
      ConsistentAlways(init);
      if last == Start(id) {
        assert StartedIds(actions)[|StartedIds(init)|] == id;
      }
      forall h | 0 <= h < |After(init).runtime| && After(init).runtime[h].commandId == id
                 && After(actions).runtime[h].state == Armed
        ensures IsRegistered(After(actions), id, h)
      {
        TimerStep(After(init), last, id, h);
        assert StartedIds(actions)[h] == id;
      }
    }
  }

  // Delivering a response cancels every armed timer of its id exactly when the registered
  // one is the only armed one ...
  lemma DeliveryCancelsIff(s: State, resp: CommandResponse)
    requires Consistent(s)
    ensures NoneArmed(Stored(s, resp), resp.commandId) <==> OnlyRegisteredArmed(s, resp.commandId)
  {
    var id, s' := resp.commandId, Stored(s, resp);
    if NoneArmed(s', id) {
      forall h | 0 <= h < |s.runtime| && s.runtime[h].commandId == id && s.runtime[h].state == Armed
        ensures id in s.timers && s.timers[id] == h
      {
        assert s'.runtime[h].commandId == id;
      }
    }
  }

  // ... which holds in every run that starts the id at most once, but not only there.
  lemma DeliveryCancels(actions: seq<Action>, resp: CommandResponse)
    requires IsRun(actions) && StartedOnce(actions, resp.commandId)
    ensures NoneArmed(Stored(After(actions), resp), resp.commandId)
  {
    ConsistentAlways(actions);
    SingleStartRegistered(actions, resp.commandId);
    DeliveryCancelsIff(After(actions), resp);
  }

  // The handle of the timer that the action at this index starts.
  function HandleOf(actions: seq<Action>, i: nat): nat
    requires i < |actions|
  {
    |StartedIds(actions[..i])|
  }

  // The action takes away the registration of an earlier timer of the id without stopping it.
  predicate Supersedes(actions: seq<Action>, k: nat, id: string)
    requires k < |actions|
  {
    || actions[k] == Start(id)
    || (actions[k].Callback? && actions[k].handle < HandleOf(actions, k)
      && StartedIds(actions[..k])[actions[k].handle] == id)
  }

  // The timer started at index i never expires, and before any response for its id arrives
  // its registration is taken away at index j.
  ghost predicate Orphans(actions: seq<Action>, id: string, i: nat, j: nat) {
    && i < j < |actions|
    && actions[i] == Start(id) && Expire(HandleOf(actions, i)) !in actions
    && Supersedes(actions, j, id) && forall k :: i < k < j ==> !Delivers(actions, k, id)
  }

  // What has become of the registration made at index i.
  datatype Fate = Current | Withdrawn | Superseded

  function FateOf(actions: seq<Action>, id: string, i: nat): Fate
    requires i < |actions|
    decreases |actions|
  {
    var last := |actions| - 1;
    if i == last then Current
    else if FateOf(actions[..last], id, i) != Current then FateOf(actions[..last], id, i)
    else if Delivers(actions, last, id) then Withdrawn
    else if Supersedes(actions, last, id) then Superseded
    else Current
  }

  lemma PrefixReads(actions: seq<Action>, last: nat, id: string, k: nat)
    requires k < last <= |actions|
    ensures Delivers(actions[..last], k, id) == Delivers(actions, k, id)
    ensures Supersedes(actions[..last], k, id) == Supersedes(actions, k, id)
    ensures HandleOf(actions[..last], k) == HandleOf(actions, k)
  {
    assert actions[..last][..k] == actions[..k];
  }

  // A timer does not expire before it is started.
  lemma {:induction false} NotYetExpired(actions: seq<Action>, h: nat)
    requires IsRun(actions) && |After(actions).runtime| <= h
    ensures Expire(h) !in actions
  {
    if actions == [] {
    } else {
      var init := actions[..|actions| - 1];
      assert actions == init + [actions[|actions| - 1]];
      NotYetExpired(init, h);
    }
  }

  // Whether a timer is armed and whether it is registered, from the actions alone.
  lemma {:induction false} TimerFate(actions: seq<Action>, id: string, i: nat)
    requires IsRun(actions) && i < |actions| && actions[i] == Start(id)
    ensures var s, h := After(actions), HandleOf(actions, i);
            && h < |s.runtime| && s.runtime[h].commandId == id
            && (IsRegistered(s, id, h) <==> FateOf(actions, id, i) == Current)
            && (s.runtime[h].state == Armed <==> Expire(h) !in actions && FateOf(actions, id, i) != Withdrawn)
    decreases |actions|
  {
    var last := |actions| - 1;
    var init, h := actions[..last], HandleOf(actions, i);
    HandlesAreStarts(init);
    ConsistentAlways(init);
    assert actions == init + [actions[last]];
    if i == last {
      NotYetExpired(init, h);
    } else {
      PrefixReads(actions, last, id, i);
      TimerFate(init, id, i);
      TimerStep(After(init), actions[last], id, h);
      hide Consistent, Apply, IsRegistered, StartedIds;
    }
  }

  lemma {:induction false} SupersededMeans(actions: seq<Action>, id: string, i: nat)
    requires i < |actions|
    ensures FateOf(actions, id, i) == Superseded <==>
            exists j :: i < j < |actions| && Supersedes(actions, j, id) && forall k :: i < k < j ==>
              !Delivers(actions, k, id)
    ensures FateOf(actions, id, i) == Current ==> forall k :: i < k < |actions| ==>
            !Delivers(actions, k, id) && !Supersedes(actions, k, id)
    ensures FateOf(actions, id, i) == Withdrawn ==>
              exists k :: i < k < |actions| && Delivers(actions, k, id) && forall j :: i < j <= k ==>
                !Supersedes(actions, j, id)
    decreases |actions|
  {
    var last := |actions| - 1;
    if i >= last {
    } else {
      var init := actions[..last];
      SupersededMeans(init, id, i);
      forall k | i < k < last
        ensures Delivers(init, k, id) == Delivers(actions, k, id)
                && Supersedes(init, k, id) == Supersedes(actions, k, id)
      {
        PrefixReads(actions, last, id, k);
      }
      match FateOf(init, id, i)
      case Current =>
      case Superseded =>
        var j :| i < j < last && Supersedes(init, j, id) && forall k :: i < k < j ==> !Delivers(init, k, id);
        assert Supersedes(actions, j, id);
      case Withdrawn =>
        var k :| i < k < last && Delivers(init, k, id) && forall j :: i < j <= k ==> !Supersedes(init, j, id);
        assert Delivers(actions, k, id);
    }
  }

  lemma {:induction false} StartOf(actions: seq<Action>, h: nat) returns (i: nat)
    requires IsRun(actions) && h < |StartedIds(actions)|
    ensures i < |actions| && actions[i] == Start(StartedIds(actions)[h]) && HandleOf(actions, i) == h
  {
    var last := |actions| - 1;
    if h == |StartedIds(actions[..last])| {
      i := last;
    } else {
      i := StartOf(actions[..last], h);
      PrefixReads(actions, last, "", i);
    }
  }

  lemma OrphanedMeans(actions: seq<Action>, id: string, i: nat)
    requires i < |actions| && actions[i] == Start(id)
    ensures (exists j :: Orphans(actions, id, i, j)) <==>
            FateOf(actions, id, i) == Superseded && Expire(HandleOf(actions, i)) !in actions
  {
    SupersededMeans(actions, id, i);
    if FateOf(actions, id, i) == Superseded && Expire(HandleOf(actions, i)) !in actions {
      var j :| i < j < |actions| && Supersedes(actions, j, id) && forall k :: i < k < j ==> !Delivers(actions, k, id);
      assert Orphans(actions, id, i, j);
    }
  }

  // In every run a response delivered next cancels every armed timer of its id exactly when
  // no timer of the id has been orphaned: between a start and the next start or callback of
  // the id there was a response, unless the timer has expired.
  lemma DeliveryCancelsExactly(actions: seq<Action>, resp: CommandResponse)
    requires IsRun(actions)
    ensures NoneArmed(Stored(After(actions), resp), resp.commandId) <==>
            !exists i, j :: Orphans(actions, resp.commandId, i, j)
  {
    var s, id := After(actions), resp.commandId;
    ConsistentAlways(actions);
    HandlesAreStarts(actions);
    DeliveryCancelsIff(s, resp);
    hide Consistent, Stored, NoneArmed, After, IsRun, FateOf, StartedIds;
    if i, j :| Orphans(actions, id, i, j) {
      TimerFate(actions, id, i);
      OrphanedMeans(actions, id, i);
      assert !OnlyRegisteredArmed(s, id);
    } else {
      forall h | 0 <= h < |s.runtime| && s.runtime[h].commandId == id
        && s.runtime[h].state == Armed ensures IsRegistered(s, id, h) {
        var i := StartOf(actions, h);
        TimerFate(actions, id, i);
        OrphanedMeans(actions, id, i);
      }
    }
  }

  // After the start at index i a response for its id arrives before the next start or callback
  // of the id.
  ghost predicate AnsweredInTime(actions: seq<Action>, id: string, i: nat) {
    exists k :: i < k < |actions| && Delivers(actions, k, id) && forall j :: i < j <= k ==> !Supersedes(actions, j, id)
  }

  lemma WithdrawnMeans(actions: seq<Action>, id: string, i: nat)
    requires i < |actions|
    ensures FateOf(actions, id, i) == Withdrawn <==> AnsweredInTime(actions, id, i)
  {
    SupersededMeans(actions, id, i);
  }

  // In every run no timer of the id can expire any more exactly when each of its starts has
  // expired or was answered in time.
  lemma NoneArmedIff(actions: seq<Action>, id: string)
    requires IsRun(actions)
    ensures NoneArmed(After(actions), id) <==>
            forall i :: 0 <= i < |actions| && actions[i] == Start(id) ==>
              Expire(HandleOf(actions, i)) in actions || AnsweredInTime(actions, id, i)
  {
    hide FateOf, IsRun, After, StartedIds, AnsweredInTime;
    var s := After(actions);
    HandlesAreStarts(actions);
    if NoneArmed(s, id) {
      forall i | 0 <= i < |actions| && actions[i] == Start(id)
        ensures Expire(HandleOf(actions, i)) in actions || AnsweredInTime(actions, id, i)
      {
        TimerFate(actions, id, i);
        WithdrawnMeans(actions, id, i);
      }
    } else {
      var h :| 0 <= h < |s.runtime| && s.runtime[h].commandId == id && s.runtime[h].state == Armed;
      var i := StartOf(actions, h);
      TimerFate(actions, id, i);
      WithdrawnMeans(actions, id, i);
    }
  }

  // A response that precedes the only start of its id does not cancel the timer.
  lemma EarlyResponseExample(id: string)
    ensures var actions := [Deliver(CommandResponse(id, "success", "")), Start(id)];
            IsRun(actions) && !NoneArmed(After(actions), id)
  {
    var deliver := Deliver(CommandResponse(id, "success", ""));
    RunOn([], deliver);
    assert [] + [deliver] == [deliver];
    RunOn([deliver], Start(id));
    assert [deliver] + [Start(id)] == [deliver, Start(id)];
    assert After([deliver, Start(id)]).runtime == [Timer(id, Armed)];
    assert After([deliver, Start(id)]).runtime[0].state == Armed;
  }

  // Starting an id again while its first callback waits for the mutex leaks the second
  // timer: the callback removes the new registration, so a later response cannot stop it.
  lemma RestartLeaksTimer(id: string)
    ensures var actions := [Start(id), Expire(0), Start(id), Callback(0), Deliver(CommandResponse(id, "success", ""))];
            IsRun(actions) && !NoneArmed(After(actions), id) && id !in After(actions).timers
  {
    var a1 := [Start(id)];
    var a2 := a1 + [Expire(0)];
    var a3 := a2 + [Start(id)];
    var a4 := a3 + [Callback(0)];
    var a5 := a4 + [Deliver(CommandResponse(id, "success", ""))];
    RunOn([], Start(id));
    assert [] + [Start(id)] == a1;
    RunOn(a1, Expire(0));
    RunOn(a2, Start(id));
    assert After(a3).runtime == [Timer(id, Fired), Timer(id, Armed)];
    RunOn(a3, Callback(0));
    RunOn(a4, Deliver(CommandResponse(id, "success", "")));
    assert After(a5).runtime == [Timer(id, Finished), Timer(id, Armed)];
    assert After(a5).runtime[1].state == Armed;
    assert a5 == [Start(id), Expire(0), Start(id), Callback(0), Deliver(CommandResponse(id, "success", ""))];
  }
}
