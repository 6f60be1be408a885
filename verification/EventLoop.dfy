/**
 The serialised event loop of the parking operator adaptor.

 The operator and the data broker are oracles: every event comes with the answers they
 would give.  An event makes at most one operator call and one publication.
 */
module EventLoop {
  import opened Wrappers
  import opened Session

  datatype StartResponse = StartResponse(sessionId: string, status: string, rate: Rate)

  datatype StopResponse = StopResponse(sessionId: string, status: string, durationSeconds: nat, totalAmount: real,
    currency: string)

  datatype OperatorError = RequestFailed(message: string) | ParseError(message: string)

  function ErrorText(e: OperatorError): string {
    match e
    case RequestFailed(message) => "operator request failed: " + message
    case ParseError(message) => "operator response parse error: " + message
  }

  datatype ManualError = AlreadyExists(sessionId: string) | FailedPrecondition | OperatorUnavailable(message: string)

  datatype Event =
    | LockChanged(isLocked: bool)
    | ManualStart(zoneId: string)
    | ManualStop
    | QueryStatus
    | QueryRate

  // What the operator, the broker and the clock answer during one event.
  datatype World = World(start: Result<StartResponse, OperatorError>, stop: Result<StopResponse, OperatorError>,
    publishes: bool, now: int)

  datatype Effect =
    | StartCall(vehicleId: string, zoneId: string, started: Result<StartResponse, OperatorError>)
    | StopCall(sessionId: string, stopped: Result<StopResponse, OperatorError>)
    | Publish(value: bool, ok: bool)
    | StartReply(startReply: Result<StartResponse, ManualError>)
    | StopReply(stopReply: Result<StopResponse, ManualError>)
    | StatusReply(status: Option<SessionState>)
    | RateReply(rate: Option<Rate>)

  // -------- the handlers as functions of the session state --------

  function AfterStart(st: Option<SessionState>, w: World, zoneId: string): Option<SessionState> {
    if w.start.Ok? then Some(SessionState(w.start.value.sessionId, zoneId, w.now, w.start.value.rate, true)) else st
  }

  function StartEffects(w: World, vehicleId: string, zoneId: string): seq<Effect> {
    [StartCall(vehicleId, zoneId, w.start)] + if w.start.Ok? then [Publish(true, w.publishes)] else []
  }

  function AfterStop(st: Option<SessionState>, w: World): Option<SessionState> {
    if w.stop.Ok? then None else st
  }

  function StopEffects(w: World, sessionId: string): seq<Effect> {
    [StopCall(sessionId, w.stop)] + if w.stop.Ok? then [Publish(false, w.publishes)] else []
  }

  function NewState(st: Option<SessionState>, e: Event, w: World, zoneId: string): Option<SessionState> {
    match e
    case LockChanged(isLocked) =>
      if isLocked && !HasActive(st) then AfterStart(st, w, zoneId)
      else if !isLocked && HasActive(st) then AfterStop(st, w)
      else st
    case ManualStart(z) => if HasActive(st) then st else AfterStart(st, w, z)
    case ManualStop => if HasActive(st) then AfterStop(st, w) else st
    case _ => st
  }

  function Effects(st: Option<SessionState>, e: Event, w: World, vehicleId: string, zoneId: string): seq<Effect> {
    match e
    case LockChanged(isLocked) =>
      if isLocked && !HasActive(st) then StartEffects(w, vehicleId, zoneId)
      else if !isLocked && HasActive(st) then StopEffects(w, st.value.sessionId)
      else []
    case ManualStart(z) =>
      if HasActive(st) then [StartReply(Err(AlreadyExists(st.value.sessionId)))]
      else StartEffects(w, vehicleId, z)
           + [StartReply(if w.start.Ok? then Ok(w.start.value) else Err(OperatorUnavailable(ErrorText(w.start.error))))]
    case ManualStop =>
      if !HasActive(st) then [StopReply(Err(FailedPrecondition))]
      else StopEffects(w, st.value.sessionId)
           + [StopReply(if w.stop.Ok? then Ok(w.stop.value) else Err(OperatorUnavailable(ErrorText(w.stop.error))))]
    case QueryStatus => [StatusReply(st)]
    case QueryRate => [RateReply(if st.Some? then Some(st.value.rate) else None)]
  }

  // -------- the handlers --------

  method ProcessLockEvent(session: Session, w: World, vehicleId: string, zoneId: string, isLocked: bool)
                          returns (effects: seq<Effect>)
    modifies session
    ensures session.state == NewState(old(session.state), LockChanged(isLocked), w, zoneId)
    ensures effects == Effects(old(session.state), LockChanged(isLocked), w, vehicleId, zoneId)
  {
    effects := [];
    if isLocked {
      if session.IsActive() {
        return;
      }
      effects := effects + [StartCall(vehicleId, zoneId, w.start)];
      if w.start.Ok? {
        var resp := w.start.value;
        session.Start(resp.sessionId, zoneId, w.now, resp.rate);
        effects := effects + [Publish(true, w.publishes)];
      }
    } else {
      if !session.IsActive() {
        return;
      }
      var sessionId := session.Status().value.sessionId;
      effects := effects + [StopCall(sessionId, w.stop)];
      if w.stop.Ok? {
        var _ := session.Stop();
        effects := effects + [Publish(false, w.publishes)];
      }
    }
  }

  method ProcessManualStart(session: Session, w: World, vehicleId: string, zoneId: string)
    returns (effects: seq<Effect>, reply: Result<StartResponse, ManualError>)
    modifies session
    ensures session.state == NewState(old(session.state), ManualStart(zoneId), w, zoneId)
    ensures effects + [StartReply(reply)] == Effects(old(session.state), ManualStart(zoneId), w, vehicleId, zoneId)
  {
    effects := [];
    if session.IsActive() {
      return [], Err(AlreadyExists(session.Status().value.sessionId));
    }
    effects := effects + [StartCall(vehicleId, zoneId, w.start)];
    match w.start {
      case Ok(resp) =>
        session.Start(resp.sessionId, zoneId, w.now, resp.rate);
        effects := effects + [Publish(true, w.publishes)];
        reply := Ok(resp);
      case Err(e) =>
        reply := Err(OperatorUnavailable(ErrorText(e)));
    }
  }

  method ProcessManualStop(session: Session, w: World)
                           returns (effects: seq<Effect>, reply: Result<StopResponse, ManualError>)
    modifies session
    ensures session.state == NewState(old(session.state), ManualStop, w, "")
    ensures effects + [StopReply(reply)] == Effects(old(session.state), ManualStop, w, "", "")
  {
    effects := [];
    if !session.IsActive() {
      return [], Err(FailedPrecondition);
    }
    var sessionId := session.Status().value.sessionId;
    effects := effects + [StopCall(sessionId, w.stop)];
    match w.stop {
      case Ok(resp) =>
        var _ := session.Stop();
        effects := effects + [Publish(false, w.publishes)];
        reply := Ok(resp);
      case Err(e) =>
        reply := Err(OperatorUnavailable(ErrorText(e)));
    }
  }

  // -------- whole runs --------

  function StateAfter(events: seq<(Event, World)>, zoneId: string): Option<SessionState> {
    if events == [] then None
    else
      var (e, w) := events[|events| - 1];
      NewState(StateAfter(events[..|events| - 1], zoneId), e, w, zoneId)
  }

  function Trace(events: seq<(Event, World)>, vehicleId: string, zoneId: string): seq<Effect> {
    if events == [] then []
    else
      var init := events[..|events| - 1];
      var (e, w) := events[|events| - 1];
      Trace(init, vehicleId, zoneId) + Effects(StateAfter(init, zoneId), e, w, vehicleId, zoneId)
  }

  method RunEventLoop(events: seq<(Event, World)>, vehicleId: string, zoneId: string)
                      returns (session: Session, trace: seq<Effect>)
    ensures session.state == StateAfter(events, zoneId)
    ensures trace == Trace(events, vehicleId, zoneId)
  {
    session := new Session();
    trace := [];
    for i := 0 to |events|
      invariant fresh(session)
      invariant session.state == StateAfter(events[..i], zoneId)
      invariant trace == Trace(events[..i], vehicleId, zoneId)
    {
      assert events[..i + 1][..i] == events[..i];
      var (event, w) := events[i];
      var effects: seq<Effect> := [];
      match event {
        case LockChanged(isLocked) =>
          effects := ProcessLockEvent(session, w, vehicleId, zoneId, isLocked);
        case ManualStart(z) =>
          var calls, reply := ProcessManualStart(session, w, vehicleId, z);
          effects := calls + [StartReply(reply)];
        case ManualStop =>
          var calls, reply := ProcessManualStop(session, w);
          effects := calls + [StopReply(reply)];
        case QueryStatus =>
          effects := [StatusReply(session.Status())];
        case QueryRate =>
          effects := [RateReply(session.CurrentRate())];
      }
      trace := trace + effects;
    }
    assert events[..|events|] == events;
  }

  // -------- what a trace says about the session --------

  datatype Opened = Opened(sessionId: string, zoneId: string, rate: Rate)

  // The latest successful start that no successful stop has followed.
  function OpenSession(trace: seq<Effect>): Option<Opened> {
    if trace == [] then None
    else
      match trace[|trace| - 1]
      case StartCall(_, zoneId, Ok(resp)) => Some(Opened(resp.sessionId, zoneId, resp.rate))
      case StopCall(_, Ok(_)) => None
      case _ => OpenSession(trace[..|trace| - 1])
  }

  // The value last offered to the broker; the service offers false before its first event.
  function LastOffered(trace: seq<Effect>): bool {
    if trace == [] then false
    else if trace[|trace| - 1].Publish? then trace[|trace| - 1].value
    else LastOffered(trace[..|trace| - 1])
  }

  function OpenId(open: Option<Opened>): Option<string> {
    if open.Some? then Some(open.value.sessionId) else None
  }

  // The session state records exactly the open session, and is active whenever present.
  predicate SameSession(st: Option<SessionState>, open: Option<Opened>) {
    match st
    case None => open == None
    case Some(s) => s.active && open == Some(Opened(s.sessionId, s.zoneId, s.rate))
  }

  // What each effect says about the calls before it.
  predicate Orderly(before: seq<Effect>, effect: Effect) {
    var open := OpenSession(before);
    match effect
    case StartCall(_, _, _) => open == None
    case StopCall(id, _) => OpenId(open) == Some(id)
    case Publish(value, _) => value == open.Some? && value != LastOffered(before)
    case StartReply(Ok(resp)) => OpenId(open) == Some(resp.sessionId)
    case StartReply(Err(AlreadyExists(id))) => OpenId(open) == Some(id)
    case StartReply(Err(OperatorUnavailable(_))) => open == None
    case StartReply(Err(FailedPrecondition)) => false
    case StopReply(Ok(_)) => open == None
    case StopReply(Err(FailedPrecondition)) => open == None
    case StopReply(Err(OperatorUnavailable(_))) => open.Some?
    case StopReply(Err(AlreadyExists(_))) => false
    case StatusReply(status) => SameSession(status, open)
    case RateReply(rate) => rate == if open.Some? then Some(open.value.rate) else None
  }

  ghost predicate AllOrderly(trace: seq<Effect>) {
    forall k :: 0 <= k < |trace| ==> Orderly(trace[..k], trace[k])
  }

  // The invariant at event boundaries.
  ghost predicate InStep(st: Option<SessionState>, trace: seq<Effect>) {
    AllOrderly(trace) && SameSession(st, OpenSession(trace)) && LastOffered(trace) == HasActive(st)
  }

  lemma Append(trace: seq<Effect>, effect: Effect)
    ensures OpenSession(trace + [effect]) ==
            (match effect
             case StartCall(_, zoneId, Ok(resp)) => Some(Opened(resp.sessionId, zoneId, resp.rate))
             case StopCall(_, Ok(_)) => None
             case _ => OpenSession(trace))
    ensures LastOffered(trace + [effect]) == if effect.Publish? then effect.value else LastOffered(trace)
    ensures AllOrderly(trace) && Orderly(trace, effect) ==> AllOrderly(trace + [effect])
  {
    var longer := trace + [effect];
    assert longer[..|longer| - 1] == trace;
    if AllOrderly(trace) && Orderly(trace, effect) {
      forall k | 0 <= k < |longer| ensures Orderly(longer[..k], longer[k]) {
        if k < |trace| {
          assert longer[..k] == trace[..k];
        }
      }
    }
  }

  lemma StartKeepsInStep(st: Option<SessionState>, trace: seq<Effect>, w: World, vehicleId: string, zoneId: string)
    requires InStep(st, trace) && !HasActive(st)
    ensures InStep(AfterStart(st, w, zoneId), trace + StartEffects(w, vehicleId, zoneId))
  {
    var call := StartCall(vehicleId, zoneId, w.start);
    Append(trace, call);
    if w.start.Ok? {
      Append(trace + [call], Publish(true, w.publishes));
      assert trace + StartEffects(w, vehicleId, zoneId) == trace + [call] + [Publish(true, w.publishes)];
    } else {
      assert trace + StartEffects(w, vehicleId, zoneId) == trace + [call];
    }
  }

  lemma StopKeepsInStep(st: Option<SessionState>, trace: seq<Effect>, w: World)
    requires InStep(st, trace) && HasActive(st)
    ensures InStep(AfterStop(st, w), trace + StopEffects(w, st.value.sessionId))
  {
    var call := StopCall(st.value.sessionId, w.stop);
    Append(trace, call);
    if w.stop.Ok? {
      Append(trace + [call], Publish(false, w.publishes));
      assert trace + StopEffects(w, st.value.sessionId) == trace + [call] + [Publish(false, w.publishes)];
    } else {
      assert trace + StopEffects(w, st.value.sessionId) == trace + [call];
    }
  }

  lemma ReplyKeepsInStep(st: Option<SessionState>, trace: seq<Effect>, reply: Effect)
    requires InStep(st, trace) && Orderly(trace, reply) && !reply.StartCall? && !reply.StopCall? && !reply.Publish?
    ensures InStep(st, trace + [reply])
  {
    Append(trace, reply);
  }

  lemma StartReplyKeepsInStep(st: Option<SessionState>, trace: seq<Effect>, w: World, vehicleId: string, zoneId: string)
    requires InStep(st, trace)
    ensures InStep(NewState(st, ManualStart(zoneId), w, zoneId), trace
            + Effects(st, ManualStart(zoneId), w, vehicleId, zoneId))
  {
    var effects := Effects(st, ManualStart(zoneId), w, vehicleId, zoneId);
    if HasActive(st) {
      ReplyKeepsInStep(st, trace, effects[0]);
    } else {
      StartKeepsInStep(st, trace, w, vehicleId, zoneId);
      var calls := StartEffects(w, vehicleId, zoneId);
      ReplyKeepsInStep(AfterStart(st, w, zoneId), trace + calls, effects[|calls|]);
      assert trace + effects == trace + calls + [effects[|calls|]];
    }
  }

  lemma StopReplyKeepsInStep(st: Option<SessionState>, trace: seq<Effect>, w: World)
    requires InStep(st, trace)
    ensures InStep(NewState(st, ManualStop, w, ""), trace + Effects(st, ManualStop, w, "", ""))
  {
    var effects := Effects(st, ManualStop, w, "", "");
    if !HasActive(st) {
      ReplyKeepsInStep(st, trace, effects[0]);
    } else {
      StopKeepsInStep(st, trace, w);
      var calls := StopEffects(w, st.value.sessionId);
      ReplyKeepsInStep(AfterStop(st, w), trace + calls, effects[|calls|]);
      assert trace + effects == trace + calls + [effects[|calls|]];
    }
  }

  lemma StepKeepsInStep(st: Option<SessionState>, trace: seq<Effect>, e: Event, w: World, vehicleId: string,
                        zoneId: string)
    requires InStep(st, trace)
    ensures InStep(NewState(st, e, w, zoneId), trace + Effects(st, e, w, vehicleId, zoneId))
  {
    match e
    case LockChanged(isLocked) =>
      assert trace + [] == trace;
      hide InStep, OpenSession;
      if isLocked && !HasActive(st) {
        StartKeepsInStep(st, trace, w, vehicleId, zoneId);
      } else if !isLocked && HasActive(st) {
        StopKeepsInStep(st, trace, w);
      }
    case ManualStart(z) =>
      hide InStep, OpenSession;
      StartReplyKeepsInStep(st, trace, w, vehicleId, z);
    case ManualStop =>
      hide InStep, OpenSession;
      StopReplyKeepsInStep(st, trace, w);
    case _ => ReplyKeepsInStep(st, trace, Effects(st, e, w, vehicleId, zoneId)[0]);
  }

  // -------- main results, for every event sequence and every pattern of failures --------

  // Every effect is in order, and the session state is the session the trace leaves open.
  lemma {:induction false} TraceInStep(events: seq<(Event, World)>, vehicleId: string, zoneId: string)
    ensures InStep(StateAfter(events, zoneId), Trace(events, vehicleId, zoneId))
  {
    if events == [] {
    } else {
      var init := events[..|events| - 1];
      var (e, w) := events[|events| - 1];
      TraceInStep(init, vehicleId, zoneId);
      StepKeepsInStep(StateAfter(init, zoneId), Trace(init, vehicleId, zoneId), e, w, vehicleId, zoneId);
    }
  }

  // -------- what is done for each event --------

  predicate IsOperatorText(error: OperatorError, text: string) {
    match error
    case RequestFailed(message) => text == "operator request failed: " + message
    case ParseError(message) => text == "operator response parse error: " + message
  }

  // The call that starts a session, and the publication if it succeeds.
  predicate IsStart(effects: seq<Effect>, w: World, vehicleId: string, zoneId: string) {
    match w.start
    case Ok(_) => effects == [StartCall(vehicleId, zoneId, w.start), Publish(true, w.publishes)]
    case Err(_) => effects == [StartCall(vehicleId, zoneId, w.start)]
  }

  // The call that stops a session, and the publication if it succeeds.
  predicate IsStop(effects: seq<Effect>, w: World, sessionId: string) {
    match w.stop
    case Ok(_) => effects == [StopCall(sessionId, w.stop), Publish(false, w.publishes)]
    case Err(_) => effects == [StopCall(sessionId, w.stop)]
  }

  // What the loop does for an event, told from the session that its calls so far have left
  // open, the session in memory and the answers of operator and broker.
  predicate IsDueFor(e: Event, open: Option<Opened>, st: Option<SessionState>, w: World, vehicleId: string,
                     zoneId: string, effects: seq<Effect>) {
    match e
    case LockChanged(isLocked) =>
      if isLocked && open == None then IsStart(effects, w, vehicleId, zoneId)
      else if !isLocked && open.Some? then IsStop(effects, w, open.value.sessionId)
      else effects == []
    case ManualStart(z) =>
      if open.Some? then effects == [StartReply(Err(AlreadyExists(open.value.sessionId)))]
      else
        && effects != [] && IsStart(effects[..|effects| - 1], w, vehicleId, z)
        && effects[|effects| - 1].StartReply?
        && (match (w.start, effects[|effects| - 1].startReply)
            case (Ok(resp), Ok(told)) => told == resp
            case (Err(error), Err(OperatorUnavailable(text))) => IsOperatorText(error, text)
            case _ => false)
    case ManualStop =>
      if open == None then effects == [StopReply(Err(FailedPrecondition))]
      else
        && effects != [] && IsStop(effects[..|effects| - 1], w, open.value.sessionId)
        && effects[|effects| - 1].StopReply?
        && (match (w.stop, effects[|effects| - 1].stopReply)
            case (Ok(resp), Ok(told)) => told == resp
            case (Err(error), Err(OperatorUnavailable(text))) => IsOperatorText(error, text)
            case _ => false)
    case QueryStatus => effects == [StatusReply(st)]
    case QueryRate => effects == [RateReply(if open.Some? then Some(open.value.rate) else None)]
  }

  // The session after an event: a successful start records the operator's answer, the zone
  // and the time, a successful stop clears it, and nothing else changes it.
  predicate IsSessionAfter(e: Event, open: Option<Opened>, st: Option<SessionState>, w: World, zoneId: string,
                           st': Option<SessionState>) {
    var starts := open == None && (e == LockChanged(true) || e.ManualStart?);
    var stops := open.Some? && (e == LockChanged(false) || e.ManualStop?);
    if starts && w.start.Ok? then
      var resp := w.start.value;
      st' == Some(SessionState(resp.sessionId, if e.ManualStart? then e.zoneId else zoneId, w.now, resp.rate, true))
    else if stops && w.stop.Ok? then st' == None
    else st' == st
  }

  lemma StepIsDue(st: Option<SessionState>, open: Option<Opened>, e: Event, w: World, vehicleId: string, zoneId: string)
    requires SameSession(st, open)
    ensures IsDueFor(e, open, st, w, vehicleId, zoneId, Effects(st, e, w, vehicleId, zoneId))
    ensures IsSessionAfter(e, open, st, w, zoneId, NewState(st, e, w, zoneId))
  {
    var effects := Effects(st, e, w, vehicleId, zoneId);
    match e
    case ManualStart(z) =>
      if open == None {
        assert effects[..|effects| - 1] == StartEffects(w, vehicleId, z);
      }
    case ManualStop =>
      if open.Some? {
        assert effects[..|effects| - 1] == StopEffects(w, open.value.sessionId);
      }
    case _ =>
  }

  // At every position of every event sequence, the loop does exactly what is due for the
  // event, and the session in memory follows.
  lemma EventAnswered(events: seq<(Event, World)>, i: nat, vehicleId: string, zoneId: string)
    requires i < |events|
    ensures var before, after := Trace(events[..i], vehicleId, zoneId), Trace(events[..i + 1], vehicleId, zoneId);
            var st, st' := StateAfter(events[..i], zoneId), StateAfter(events[..i + 1], zoneId);
            var (e, w) := events[i];
            && before <= after
            && IsDueFor(e, OpenSession(before), st, w, vehicleId, zoneId, after[|before|..])
            && IsSessionAfter(e, OpenSession(before), st, w, zoneId, st')
  {
    var (e, w) := events[i];
    assert events[..i + 1][..i] == events[..i];
    TraceInStep(events[..i], vehicleId, zoneId);
    var before, st := Trace(events[..i], vehicleId, zoneId), StateAfter(events[..i], zoneId);
    StepIsDue(st, OpenSession(before), e, w, vehicleId, zoneId);
    var after := Trace(events[..i + 1], vehicleId, zoneId);
    assert after == before + Effects(st, e, w, vehicleId, zoneId);
    assert after[|before|..] == Effects(st, e, w, vehicleId, zoneId);
  }

  predicate Succeeded(effect: Effect) {
    (effect.StartCall? && effect.started.Ok?) || (effect.StopCall? && effect.stopped.Ok?)
  }

  // Where an open session was started.
  lemma {:induction false} OpenedAt(trace: seq<Effect>) returns (i: nat)
    requires OpenSession(trace).Some?
    ensures i < |trace| && trace[i].StartCall? && trace[i].started.Ok?
            && OpenId(OpenSession(trace)) == Some(trace[i].started.value.sessionId)
    ensures forall j :: i < j < |trace| ==> !Succeeded(trace[j])
  {
    var last := |trace| - 1;
    if Succeeded(trace[last]) {
      i := last;
    } else {
      i := OpenedAt(trace[..last]);
    }
  }

  // Every call to stop carries the id of a successful start with no successful call between.
  lemma StopsMatchStarts(events: seq<(Event, World)>, vehicleId: string, zoneId: string, k: nat) returns (i: nat)
    requires k < |Trace(events, vehicleId, zoneId)| && Trace(events, vehicleId, zoneId)[k].StopCall?
    ensures var trace := Trace(events, vehicleId, zoneId);
            && i < k && trace[i].StartCall? && trace[i].started.Ok?
              && trace[i].started.value.sessionId == trace[k].sessionId
            && forall j :: i < j < k ==> !Succeeded(trace[j])
  {
    TraceInStep(events, vehicleId, zoneId);
    var trace := Trace(events, vehicleId, zoneId);
    assert Orderly(trace[..k], trace[k]);
    i := OpenedAt(trace[..k]);
    forall j | i < j < k ensures !Succeeded(trace[j]) {
      assert trace[..k][j] == trace[j];
    }
  }

  lemma {:induction false} StopBetween(trace: seq<Effect>, i: nat, k: nat) returns (j: nat)
    requires i < k <= |trace| && trace[i].StartCall? && trace[i].started.Ok? && OpenSession(trace[..k]) == None
    ensures i < j < k && trace[j].StopCall? && trace[j].stopped.Ok?
    decreases k
  {
    var last := trace[k - 1];
    assert trace[..k][..k - 1] == trace[..k - 1];
    if last.StopCall? && last.stopped.Ok? {
      j := k - 1;
    } else {
      j := StopBetween(trace, i, k - 1);
    }
  }

  // Between a successful start and any later attempt to start there is a successful stop.
  lemma StartsAlternate(events: seq<(Event, World)>, vehicleId: string, zoneId: string, i: nat, k: nat) returns (j: nat)
    requires i < k < |Trace(events, vehicleId, zoneId)|
    requires var trace := Trace(events, vehicleId, zoneId);
             trace[i].StartCall? && trace[i].started.Ok? && trace[k].StartCall?
    ensures var trace := Trace(events, vehicleId, zoneId); i < j < k && trace[j].StopCall? && trace[j].stopped.Ok?
  {
    TraceInStep(events, vehicleId, zoneId);
    var trace := Trace(events, vehicleId, zoneId);
    assert Orderly(trace[..k], trace[k]);
    j := StopBetween(trace, i, k);
  }

  // The number of successful starts minus the number of successful stops.
  function Balance(trace: seq<Effect>): int {
    if trace == [] then 0
    else
      var last := trace[|trace| - 1];
      Balance(trace[..|trace| - 1]) + if !Succeeded(last) then 0 else if last.StartCall? then 1 else -1
  }

  lemma OrderlyInit(trace: seq<Effect>)
    requires trace != [] && AllOrderly(trace)
    ensures AllOrderly(trace[..|trace| - 1]) && Orderly(trace[..|trace| - 1], trace[|trace| - 1])
  {
    var init := trace[..|trace| - 1];
    forall k | 0 <= k < |init| ensures Orderly(init[..k], init[k]) {
      assert Orderly(trace[..k], trace[k]);
      assert init[..k] == trace[..k];
    }
  }

  lemma {:induction false} OrderlyBalance(trace: seq<Effect>)
    requires AllOrderly(trace)
    ensures Balance(trace) == if OpenSession(trace).Some? then 1 else 0
  {
    if trace == [] {
    } else {
      OrderlyInit(trace);
      OrderlyBalance(trace[..|trace| - 1]);
    }
  }

  // A session is active exactly when one more start than stops has succeeded; the two counts
  // never differ by anything else.
  lemma SessionBalance(events: seq<(Event, World)>, vehicleId: string, zoneId: string)
    ensures Balance(Trace(events, vehicleId, zoneId)) == if HasActive(StateAfter(events, zoneId)) then 1 else 0
  {
    TraceInStep(events, vehicleId, zoneId);
    OrderlyBalance(Trace(events, vehicleId, zoneId));
  }

  // -------- the published signal --------

  // The broker's value: a failed publication leaves it as it was.
  function BrokerValue(initial: Option<bool>, trace: seq<Effect>): Option<bool> {
    if trace == [] then initial
    else
      var last := trace[|trace| - 1];
      if last.Publish? && last.ok then Some(last.value) else BrokerValue(initial, trace[..|trace| - 1])
  }

  // How many publications have failed since the last one that succeeded.
  function FailedSince(trace: seq<Effect>): nat {
    if trace == [] then 0
    else
      var last := trace[|trace| - 1];
      if !last.Publish? then FailedSince(trace[..|trace| - 1])
      else if last.ok then 0
      else FailedSince(trace[..|trace| - 1]) + 1
  }

  ghost predicate AnyPublished(trace: seq<Effect>) {
    exists k :: 0 <= k < |trace| && trace[k].Publish? && trace[k].ok
  }

  lemma AnyPublishedInit(trace: seq<Effect>)
    requires trace != []
    ensures var last := trace[|trace| - 1];
            AnyPublished(trace) <==> AnyPublished(trace[..|trace| - 1]) || (last.Publish? && last.ok)
  {
    var init := trace[..|trace| - 1];
    assert forall k :: 0 <= k < |init| ==> init[k] == trace[k];
  }

  // Offers alternate, so the broker's value differs from the latest offer by the parity of
  // the failures: those since the last success, or all of them.
  lemma {:induction false} BrokerParity(initial: Option<bool>, trace: seq<Effect>)
    requires AllOrderly(trace)
    ensures AnyPublished(trace) ==>
            BrokerValue(initial, trace) == Some(LastOffered(trace) == (FailedSince(trace) % 2 == 0))
    ensures !AnyPublished(trace) ==>
            BrokerValue(initial, trace) == initial && LastOffered(trace) == (FailedSince(trace) % 2 == 1)
  {
    if trace != [] {
      hide OpenSession, AnyPublished;
      OrderlyInit(trace);
      AnyPublishedInit(trace);
      BrokerParity(initial, trace[..|trace| - 1]);
    } else {
      assert !AnyPublished(trace);
    }
  }

  // Whatever the broker held at first: at an event boundary it agrees with the session
  // exactly when an even number of publications has failed since the last success, or, if
  // none has succeeded, when it held the value that the parity of the failures calls for.
  lemma SignalAgreement(events: seq<(Event, World)>, vehicleId: string, zoneId: string, initial: Option<bool>)
    ensures var trace := Trace(events, vehicleId, zoneId);
            BrokerValue(initial, trace) == Some(HasActive(StateAfter(events, zoneId))) <==>
              if AnyPublished(trace) then FailedSince(trace) % 2 == 0 else initial == Some(FailedSince(trace) % 2 == 1)
  {
    TraceInStep(events, vehicleId, zoneId);
    BrokerParity(initial, Trace(events, vehicleId, zoneId));
  }

  // The signal need not match the session: it stays false when the publication of the first
  // start fails.
  lemma SignalExample(resp: StartResponse, vehicleId: string, zoneId: string)
    ensures var events := [(LockChanged(true), World(Ok(resp), Err(ParseError("")), false, 0))];
            HasActive(StateAfter(events, zoneId))
              && BrokerValue(Some(false), Trace(events, vehicleId, zoneId)) == Some(false)
  {
    var w := World(Ok(resp), Err(ParseError("")), false, 0);
    var events := [(LockChanged(true), w)];
    assert events[..|events| - 1] == [];
    assert StateAfter([], zoneId) == None && Trace([], vehicleId, zoneId) == [];
    var trace := Trace(events, vehicleId, zoneId);
    assert trace == [StartCall(vehicleId, zoneId, Ok(resp)), Publish(true, false)];
    assert trace[..|trace| - 1] == [trace[0]] && [trace[0]][..0] == [];
    assert BrokerValue(Some(false), [trace[0]]) == BrokerValue(Some(false), [trace[0]][..0]);
  }

  lemma {:induction false} LastPublication(trace: seq<Effect>, initial: Option<bool>, k: nat)
    requires k < |trace| && trace[k].Publish? && trace[k].ok && forall j :: k < j < |trace| ==> !trace[j].Publish?
    ensures BrokerValue(initial, trace) == Some(trace[k].value) && LastOffered(trace) == trace[k].value
  {
    if k >= |trace| - 1 {
    } else {
      assert !trace[|trace| - 1].Publish?;
      LastPublication(trace[..|trace| - 1], initial, k);
    }
  }

  // Whatever the broker held before, one successful publication is enough for agreement
  // until the next failure.
  lemma {:induction false} FreshSignal(events: seq<(Event, World)>, vehicleId: string, zoneId: string,
                                       initial: Option<bool>, k: nat)
    requires k < |Trace(events, vehicleId, zoneId)|
    requires var trace := Trace(events, vehicleId, zoneId);
             trace[k].Publish? && trace[k].ok && forall j :: k < j < |trace| ==> !trace[j].Publish?
    ensures BrokerValue(initial, Trace(events, vehicleId, zoneId)) == Some(HasActive(StateAfter(events, zoneId)))
  {
    TraceInStep(events, vehicleId, zoneId);
    LastPublication(Trace(events, vehicleId, zoneId), initial, k);
  }
}
