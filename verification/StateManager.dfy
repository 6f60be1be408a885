/** The update service's in-memory adapter map and the operations on it. */
module StateManager {
  import opened Wrappers

  datatype AdapterState = Unknown | Downloading | Installing | Running | Stopped | Error | Offloading

  datatype AdapterEntry = AdapterEntry(
    adapterId: string,
    imageRef: string,
    checksum: string,
    state: AdapterState,
    jobId: string,
    stoppedAt: Option<nat>,
    errorMessage: Option<string>)

  datatype StateEvent = StateEvent(adapterId: string, oldState: AdapterState, newState: AdapterState)

  datatype StateError = NotFound(adapterId: string)

  type Adapters = map<string, AdapterEntry>

  // Entries are filed under their own id.
  ghost predicate WellKeyed(adapters: Adapters) {
    forall id :: id in adapters ==> adapters[id].adapterId == id
  }

  // An entry after a transition at the given instant.  The instant of stopping and the
  // error message survive later transitions to other states.
  function Entered(entry: AdapterEntry, newState: AdapterState, errorMsg: Option<string>, now: nat): AdapterEntry {
    entry.(state := newState,
           stoppedAt := if newState == Stopped then Some(now) else entry.stoppedAt,
           errorMessage := if newState == Error then errorMsg else entry.errorMessage)
  }

  function Transitioned(adapters: Adapters, id: string, newState: AdapterState, errorMsg: Option<string>,
                        now: nat): Adapters {
    if id in adapters then adapters[id := Entered(adapters[id], newState, errorMsg, now)] else adapters
  }

  predicate IsCandidate(entry: AdapterEntry, timeout: nat, now: nat) {
    entry.state == Stopped && entry.stoppedAt.Some? && now - entry.stoppedAt.value >= timeout
  }

  // A listing, in some order, of exactly the entries due for offloading.
  ghost predicate IsCandidateList(adapters: Adapters, list: seq<AdapterEntry>, timeout: nat, now: nat) {
    && (forall i :: 0 <= i < |list| ==>
          list[i].adapterId in adapters && adapters[list[i].adapterId] == list[i] && IsCandidate(list[i], timeout, now))
    && (forall i, j :: 0 <= i < j < |list| ==> list[i].adapterId != list[j].adapterId)
    && (forall id :: id in adapters && IsCandidate(adapters[id], timeout, now) ==> adapters[id] in list)
  }

  // A running entry if there is one; which one is left open, as it depends on the order in
  // which a hash map is traversed.
  ghost predicate IsRunningChoice(adapters: Adapters, choice: Option<AdapterEntry>) {
    match choice
    case None => forall id :: id in adapters ==> adapters[id].state != Running
    case Some(e) => e.adapterId in adapters && adapters[e.adapterId] == e && e.state == Running
  }

  class StateManager {
    var adapters: Adapters
    var events: seq<StateEvent>

    ghost predicate Valid()
      reads this
    {
      WellKeyed(adapters)
    }

    constructor ()
      ensures Valid() && adapters == map[] && events == []
    {
      adapters, events := map[], [];
    }

    method CreateAdapter(entry: AdapterEntry)
      requires Valid()
      modifies this
      ensures Valid() && adapters == old(adapters)[entry.adapterId := entry] && events == old(events)
    {
      adapters := adapters[entry.adapterId := entry];
    }

    // There is no check that the edge from the old to the new state is a legal one.
    method Transition(id: string, newState: AdapterState, errorMsg: Option<string>, now: nat)
                      returns (r: Result<(), StateError>)
      requires Valid()
      modifies this
      ensures Valid() && adapters == Transitioned(old(adapters), id, newState, errorMsg, now)
      ensures id in old(adapters) ==>
              r == Ok(()) && events == old(events) + [StateEvent(id, old(adapters)[id].state, newState)]
      ensures id !in old(adapters) ==> r == Err(NotFound(id)) && events == old(events)
    {
      if id !in adapters {
        return Err(NotFound(id));
      }
      var entry := adapters[id];
      var oldState := entry.state;
      entry := entry.(state := newState);
      if newState == Stopped {
        entry := entry.(stoppedAt := Some(now));
      }
      if newState == Error {
        entry := entry.(errorMessage := errorMsg);
      }
      adapters := adapters[id := entry];
      events := events + [StateEvent(id, oldState, newState)];
      return Ok(());
    }

    method GetAdapter(id: string) returns (r: Option<AdapterEntry>)
      ensures r == if id in adapters then Some(adapters[id]) else None
    {
      if id in adapters {
        return Some(adapters[id]);
      }
      return None;
    }

    method RemoveAdapter(id: string) returns (r: Result<(), StateError>)
      requires Valid()
      modifies this
      ensures Valid() && adapters == old(adapters) - {id} && events == old(events)
      ensures r == if id in old(adapters) then Ok(()) else Err(NotFound(id))
    {
      var found := id in adapters;
      adapters := adapters - {id};
      return if found then Ok(()) else Err(NotFound(id));
    }

    method GetRunningAdapter() returns (r: Option<AdapterEntry>)
      requires Valid()
      ensures IsRunningChoice(adapters, r)
    {
      var left := adapters.Keys;
      while left != {}
        invariant left <= adapters.Keys
        invariant forall id :: id in adapters && id !in left ==> adapters[id].state != Running
        decreases |left|
      {
        var id :| id in left;
        if adapters[id].state == Running {
          return Some(adapters[id]);
        }
        left := left - {id};
      }
      return None;
    }

    method GetOffloadCandidates(timeout: nat, now: nat) returns (list: seq<AdapterEntry>)
      requires Valid()
      ensures IsCandidateList(adapters, list, timeout, now)
    {
      list := [];
      var left := adapters.Keys;
      while left != {}
        invariant left <= adapters.Keys
        invariant forall i :: 0 <= i < |list| ==>
                    list[i].adapterId in adapters && list[i].adapterId !in left
                      && adapters[list[i].adapterId] == list[i]
                    && IsCandidate(list[i], timeout, now)
        invariant forall i, j :: 0 <= i < j < |list| ==> list[i].adapterId != list[j].adapterId
        invariant forall id :: id in adapters && id !in left && IsCandidate(adapters[id], timeout, now) ==>
                  adapters[id] in list
        decreases |left|
      {
        var id :| id in left;
        left := left - {id};
        if IsCandidate(adapters[id], timeout, now) {
          list := list + [adapters[id]];
        }
      }
    }
  }
}
