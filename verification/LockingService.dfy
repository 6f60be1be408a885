/**
 The locking service: the safety gate, lock and unlock processing, payload handling and the
 sequential service loop.

 The data broker is an oracle: every payload comes with the answers it would give.
 */
module LockingService {
  import opened Wrappers
  import opened CommandPayload

  // Reading a signal may fail, and a signal may be unset.
  datatype World = World(speed: Result<Option<real>, ()>, doorOpen: Result<Option<bool>, ()>, writes: bool,
    responds: bool)

  datatype SafetyResult = Safe | VehicleMoving | DoorOpen

  datatype Verdict = Granted | Refused(reason: string)

  datatype Effect =
    | ReadSpeed(speed: Result<Option<real>, ()>)
    | ReadDoor(doorOpen: Result<Option<bool>, ()>)
    | SetLocked(value: bool, ok: bool)
    | Respond(commandId: string, verdict: Verdict, published: bool)

  function Known<T>(r: Result<Option<T>, ()>, default: T): T {
    if r.Ok? && r.value.Some? then r.value.value else default
  }

  // -------- the safety gate --------

  function CheckSafety(w: World): SafetyResult {
    if Known(w.speed, 0.0) >= 1.0 then VehicleMoving
    else if Known(w.doorOpen, false) then DoorOpen
    else Safe
  }

  // The door is not read when the vehicle moves.
  function SafetyReads(w: World): seq<Effect> {
    [ReadSpeed(w.speed)] + if Known(w.speed, 0.0) >= 1.0 then [] else [ReadDoor(w.doorOpen)]
  }

  // -------- commands --------

  function VerdictOn(w: World, cmd: LockCommand): Verdict {
    if cmd.action == Unlock then Granted
    else
      match CheckSafety(w)
      case VehicleMoving => Refused("vehicle_moving")
      case DoorOpen => Refused("door_open")
      case Safe => Granted
  }

  function NewLockState(w: World, cmd: LockCommand, locked: bool): bool {
    if VerdictOn(w, cmd) == Granted then cmd.action == Lock else locked
  }

  function CommandEffects(w: World, cmd: LockCommand, locked: bool): seq<Effect> {
    (if cmd.action == Lock then SafetyReads(w) else [])
    + (if NewLockState(w, cmd, locked) != locked then [SetLocked(cmd.action == Lock, w.writes)] else [])
    + [Respond(cmd.commandId, VerdictOn(w, cmd), w.responds)]
  }

  method ProcessLock(w: World, cmd: LockCommand, lockState: bool)
                     returns (newState: bool, effects: seq<Effect>, verdict: Verdict)
    requires cmd.action == Lock
    ensures newState == NewLockState(w, cmd, lockState) && verdict == VerdictOn(w, cmd)
    ensures effects + [Respond(cmd.commandId, verdict, w.responds)] == CommandEffects(w, cmd, lockState)
  {
    newState := lockState;
    effects := SafetyReads(w);
    match CheckSafety(w) {
      case VehicleMoving => return newState, effects, Refused("vehicle_moving");
      case DoorOpen => return newState, effects, Refused("door_open");
      case Safe =>
    }
    if !lockState {
      effects := effects + [SetLocked(true, w.writes)];
      newState := true;
    }
    verdict := Granted;
  }

  method ProcessUnlock(w: World, cmd: LockCommand, lockState: bool)
                       returns (newState: bool, effects: seq<Effect>, verdict: Verdict)
    requires cmd.action == Unlock
    ensures newState == NewLockState(w, cmd, lockState) && verdict == VerdictOn(w, cmd)
    ensures effects + [Respond(cmd.commandId, verdict, w.responds)] == CommandEffects(w, cmd, lockState)
  {
    newState, effects := lockState, [];
    if lockState {
      effects := effects + [SetLocked(false, w.writes)];
      newState := false;
    }
    verdict := Granted;
  }

  method ProcessCommand(w: World, cmd: LockCommand, lockState: bool) returns (newState: bool, effects: seq<Effect>)
    ensures newState == NewLockState(w, cmd, lockState) && effects == CommandEffects(w, cmd, lockState)
  {
    var verdict;
    match cmd.action {
      case Lock => newState, effects, verdict := ProcessLock(w, cmd, lockState);
      case Unlock => newState, effects, verdict := ProcessUnlock(w, cmd, lockState);
    }
    effects := effects + [Respond(cmd.commandId, verdict, w.responds)];
  }

  // -------- payloads --------

  function HandledState(lib: Library, w: World, payload: Payload, locked: bool): bool {
    match ParseCommand(lib, payload)
    case Ok(cmd) => if Validation(cmd) == None then NewLockState(w, cmd, locked) else locked
    case Err(_) => locked
  }

  function HandledEffects(lib: Library, w: World, payload: Payload, locked: bool): seq<Effect> {
    match ParseCommand(lib, payload)
    case Err(InvalidJson) => []
    case Err(e) =>
      (match ExtractCommandId(payload)
       case Some(id) => [Respond(id, Refused(Reason(e)), w.responds)]
       case None => [])
    case Ok(cmd) =>
      match Validation(cmd)
      case Some(e) => [Respond(cmd.commandId, Refused(Reason(e)), w.responds)]
      case None => CommandEffects(w, cmd, locked)
  }

  method HandleCommandPayload(lib: Library, w: World, payload: Payload, lockState: bool)
                              returns (newState: bool, effects: seq<Effect>)
    ensures newState == HandledState(lib, w, payload, lockState)
    ensures effects == HandledEffects(lib, w, payload, lockState)
  {
    newState, effects := lockState, [];
    match ParseCommand(lib, payload) {
      case Err(e) =>
        if e == InvalidJson {
          return;
        }
        var id := ExtractCommandId(payload);
        if id.Some? {
          effects := [Respond(id.value, Refused(Reason(e)), w.responds)];
        }
      case Ok(cmd) =>
        var invalid := ValidateCommand(cmd);
        if invalid.Some? {
          effects := [Respond(cmd.commandId, Refused(Reason(invalid.value)), w.responds)];
          return;
        }
        newState, effects := ProcessCommand(w, cmd, lockState);
    }
  }

  // -------- the service loop --------

  datatype Input =
    | Received(payload: Payload, world: World)
    | StreamEnded(resubscribes: bool)
    | ShutdownSignal

  datatype Status = Serving | ShutDown | SubscriptionLost | ResubscribeFailed

  const MAX_RESUBSCRIBE_ATTEMPTS := 3

  datatype Service = Service(locked: bool, resubscribes: nat, status: Status, trace: seq<Effect>)

  const STARTED := Service(false, 0, Serving, [])

  function Served(lib: Library, s: Service, input: Input): Service {
    if s.status != Serving then s
    else
      match input
      case Received(payload, w) =>
        Service(HandledState(lib, w, payload, s.locked), 0, Serving, s.trace
          + HandledEffects(lib, w, payload, s.locked))
      case StreamEnded(resubscribes) =>
        var attempts := s.resubscribes + 1;
        s.(resubscribes := attempts,
           status := if attempts > MAX_RESUBSCRIBE_ATTEMPTS then SubscriptionLost else if resubscribes then Serving
             else ResubscribeFailed)
      case ShutdownSignal => s.(status := ShutDown)
  }

  // The service after the given inputs, once it has published its initial state and
  // subscribed.
  function ServiceAfter(lib: Library, inputs: seq<Input>): Service {
    if inputs == [] then STARTED else Served(lib, ServiceAfter(lib, inputs[..|inputs| - 1]), inputs[|inputs| - 1])
  }

  lemma {:induction false} EndedStays(lib: Library, inputs: seq<Input>, k: nat)
    requires k <= |inputs| && ServiceAfter(lib, inputs[..k]).status != Serving
    ensures ServiceAfter(lib, inputs) == ServiceAfter(lib, inputs[..k])
  {
    if k < |inputs| {
      assert inputs[..|inputs| - 1][..k] == inputs[..k];
      EndedStays(lib, inputs[..|inputs| - 1], k);
    } else {
      assert inputs[..k] == inputs;
    }
  }

  method Run(lib: Library, inputs: seq<Input>) returns (final: Service)
    ensures final == ServiceAfter(lib, inputs)
  {
    hide HandledEffects, HandledState;
    var lockState, resubscribeCount, trace := false, 0, [];
    for i := 0 to |inputs|
      invariant ServiceAfter(lib, inputs[..i]) == Service(lockState, resubscribeCount, Serving, trace)
    {
      assert inputs[..i + 1][..i] == inputs[..i];
      match inputs[i] {
        case Received(payload, w) =>
          resubscribeCount := 0;
          var effects;
          lockState, effects := HandleCommandPayload(lib, w, payload, lockState);
          trace := trace + effects;
        case StreamEnded(resubscribes) =>
          resubscribeCount := resubscribeCount + 1;
          if resubscribeCount > MAX_RESUBSCRIBE_ATTEMPTS {
            EndedStays(lib, inputs, i + 1);
            return Service(lockState, resubscribeCount, SubscriptionLost, trace);
          }
          if !resubscribes {
            EndedStays(lib, inputs, i + 1);
            return Service(lockState, resubscribeCount, ResubscribeFailed, trace);
          }
        case ShutdownSignal =>
          EndedStays(lib, inputs, i + 1);
          return Service(lockState, resubscribeCount, ShutDown, trace);
      }
    }
    assert inputs[..|inputs|] == inputs;
    return Service(lockState, resubscribeCount, Serving, trace);
  }

  // -------- what a trace says about the lock --------

  // The value last offered to the broker; the service offers false before its first input.
  function LastOffered(trace: seq<Effect>): bool {
    if trace == [] then false
    else if trace[|trace| - 1].SetLocked? then trace[|trace| - 1].value
    else LastOffered(trace[..|trace| - 1])
  }

  // A speed that is known to be below the limit or unknown, and a door that is not known to
  // be open.
  predicate SafeReadings(speed: Effect, door: Effect) {
    && speed.ReadSpeed? && !(speed.speed.Ok? && speed.speed.value.Some? && speed.speed.value.value >= 1.0)
    && door.ReadDoor? && door.doorOpen != Ok(Some(true))
  }

  ghost predicate WriteIsGuarded(trace: seq<Effect>, k: nat)
    requires k < |trace|
  {
    trace[k].SetLocked? ==>
      && trace[k].value != LastOffered(trace[..k])
      && (trace[k].value ==> k >= 2 && SafeReadings(trace[k - 2], trace[k - 1]))
  }

  // Every write changes the offered value, and a write of true directly follows two safe
  // readings.
  ghost predicate Guarded(trace: seq<Effect>) {
    forall k :: 0 <= k < |trace| ==> WriteIsGuarded(trace, k)
  }

  // The action of the last command that was granted, told from the inputs alone.
  predicate Grants(lib: Library, payload: Payload, w: World) {
    var parsed := ParseCommand(lib, payload);
    && parsed.Ok?
    && parsed.value.commandId != "" && parsed.value.doors != []
      && (forall d :: d in parsed.value.doors ==> d == "driver")
    && (parsed.value.action == Lock ==> SafeReadings(ReadSpeed(w.speed), ReadDoor(w.doorOpen)))
  }

  function LastGranted(lib: Library, inputs: seq<Input>): Option<Action> {
    if inputs == [] then None
    else
      var init, last := inputs[..|inputs| - 1], inputs[|inputs| - 1];
      if last.Received? && Grants(lib, last.payload, last.world) && ServiceAfter(lib, init).status == Serving
      then Some(ParseCommand(lib, last.payload).value.action)
      else LastGranted(lib, init)
  }

  lemma OfferedConcat(trace: seq<Effect>, effect: Effect)
    ensures LastOffered(trace + [effect]) == if effect.SetLocked? then effect.value else LastOffered(trace)
  {
    assert (trace + [effect])[..|trace|] == trace;
  }

  lemma GuardedAppend(trace: seq<Effect>, effect: Effect)
    requires Guarded(trace)
    requires effect.SetLocked? ==>
               && effect.value != LastOffered(trace)
               && (effect.value ==> |trace| >= 2 && SafeReadings(trace[|trace| - 2], trace[|trace| - 1]))
    ensures Guarded(trace + [effect])
  {
    hide LastOffered, SafeReadings;
    var longer := trace + [effect];
    assert longer[..|trace|] == trace;
    forall k | 0 <= k < |longer| ensures WriteIsGuarded(longer, k) {
      if k < |trace| {
        assert WriteIsGuarded(trace, k);
        assert longer[..k] == trace[..k];
      }
    }
  }

  lemma {:induction false} NoWrites(trace: seq<Effect>, effects: seq<Effect>)
    requires Guarded(trace) && forall e :: e in effects ==> !e.SetLocked?
    ensures Guarded(trace + effects) && LastOffered(trace + effects) == LastOffered(trace)
    decreases |effects|
  {
    if effects == [] {
      assert trace + effects == trace;
    } else {
      var init, last := effects[..|effects| - 1], effects[|effects| - 1];
      NoWrites(trace, init);
      assert trace + effects == trace + init + [last];
      OfferedConcat(trace + init, last);
      GuardedAppend(trace + init, last);
    }
  }

  lemma ReadingsAreSafe(w: World)
    requires CheckSafety(w) == Safe
    ensures SafetyReads(w) == [ReadSpeed(w.speed), ReadDoor(w.doorOpen)]
    ensures SafeReadings(ReadSpeed(w.speed), ReadDoor(w.doorOpen))
  {
  }

  lemma WriteGuarded(trace: seq<Effect>, w: World, cmd: LockCommand)
    requires Guarded(trace) && NewLockState(w, cmd, LastOffered(trace)) != LastOffered(trace)
    ensures var readings := if cmd.action == Lock then SafetyReads(w) else [];
            var written := trace + readings + [SetLocked(cmd.action == Lock, w.writes)];
            Guarded(written) && LastOffered(written) == (cmd.action == Lock)
  {
    var readings := if cmd.action == Lock then SafetyReads(w) else [];
    var write := SetLocked(cmd.action == Lock, w.writes);
    NoWrites(trace, readings);
    if cmd.action == Lock {
      ReadingsAreSafe(w);
    }
    GuardedAppend(trace + readings, write);
    OfferedConcat(trace + readings, write);
  }

  lemma CommandGuarded(trace: seq<Effect>, w: World, cmd: LockCommand)
    requires Guarded(trace)
    ensures var locked := LastOffered(trace); var longer := trace + CommandEffects(w, cmd, locked);
            Guarded(longer) && LastOffered(longer) == NewLockState(w, cmd, locked)
  {
    hide Guarded, LastOffered;
    var locked := LastOffered(trace);
    var effects := CommandEffects(w, cmd, locked);
    if NewLockState(w, cmd, locked) == locked {
      NoWrites(trace, effects);
    } else {
      var readings := if cmd.action == Lock then SafetyReads(w) else [];
      var write, respond := SetLocked(cmd.action == Lock, w.writes),
        Respond(cmd.commandId, VerdictOn(w, cmd), w.responds);
      WriteGuarded(trace, w, cmd);
      NoWrites(trace + readings + [write], [respond]);
      assert trace + effects == trace + readings + [write] + [respond];
    }
  }

  lemma HandledGuarded(lib: Library, trace: seq<Effect>, w: World, payload: Payload)
    requires Guarded(trace)
    ensures var locked := LastOffered(trace); var longer := trace + HandledEffects(lib, w, payload, locked);
            Guarded(longer) && LastOffered(longer) == HandledState(lib, w, payload, locked)
  {
    var parsed := ParseCommand(lib, payload);
    if parsed.Ok? && Validation(parsed.value) == None {
      CommandGuarded(trace, w, parsed.value);
    } else {
      NoWrites(trace, HandledEffects(lib, w, payload, LastOffered(trace)));
    }
  }

  // -------- main results --------

  // Over every input sequence: writes of the lock signal strictly alternate after the
  // initial false, a write of true directly follows safe readings, and the lock state is the
  // value last offered.
  lemma {:induction false} LockTrace(lib: Library, inputs: seq<Input>)
    ensures var s := ServiceAfter(lib, inputs); Guarded(s.trace) && s.locked == LastOffered(s.trace)
  {
    if inputs == [] {
    } else {
      LockTrace(lib, inputs[..|inputs| - 1]);
      var s, input := ServiceAfter(lib, inputs[..|inputs| - 1]), inputs[|inputs| - 1];
      if s.status == Serving && input.Received? {
        HandledGuarded(lib, s.trace, input.world, input.payload);
      }
    }
  }

  // The broker's lock signal: a failed write leaves it as it was.  The service ends before
  // its first input unless its initial false is published.
  function BrokerValue(trace: seq<Effect>): bool {
    if trace == [] then false
    else
      var last := trace[|trace| - 1];
      if last.SetLocked? && last.ok then last.value else BrokerValue(trace[..|trace| - 1])
  }

  // How many writes have failed since the last one that succeeded.
  function FailedSince(trace: seq<Effect>): nat {
    if trace == [] then 0
    else
      var last := trace[|trace| - 1];
      if !last.SetLocked? then FailedSince(trace[..|trace| - 1])
      else if last.ok then 0
      else FailedSince(trace[..|trace| - 1]) + 1
  }

  lemma {:induction false} BrokerParity(trace: seq<Effect>)
    requires Guarded(trace)
    ensures BrokerValue(trace) == LastOffered(trace) <==> FailedSince(trace) % 2 == 0
  {
    if trace == [] {
    } else {
      var init := trace[..|trace| - 1];
      forall k | 0 <= k < |init| ensures WriteIsGuarded(init, k) {
        assert WriteIsGuarded(trace, k);
        assert init[..k] == trace[..k];
      }
      BrokerParity(init);
      assert WriteIsGuarded(trace, |init|);
    }
  }

  // The lock state changes even when its publication fails.  The signal agrees with it
  // exactly when an even number of writes has failed since the last success.
  lemma LockSignalAgreement(lib: Library, inputs: seq<Input>)
    ensures var s := ServiceAfter(lib, inputs); BrokerValue(s.trace) == s.locked <==> FailedSince(s.trace) % 2 == 0
  {
    LockTrace(lib, inputs);
    BrokerParity(ServiceAfter(lib, inputs).trace);
  }

  const LOCK_PAYLOAD := Tree(JObject([("command_id", JString("1")), ("action", JString("lock")),
    ("doors", JArray([JString("driver")]))]))

  const FAILING_WORLD := World(Ok(Some(0.0)), Ok(None), false, true)

  lemma LockPayloadParses(lib: Library)
    ensures ParseCommand(lib, LOCK_PAYLOAD) == Ok(LockCommand("1", Lock, ["driver"], None, None, None))
  {
    var fields := LOCK_PAYLOAD.json.fields;
    assert fields[..2][..1] == fields[..1] && fields[..1][..0] == [];
    assert ReadFields(lib, fields[..1]) == Ok(NOTHING.(commandId := Some("1")));
    assert ReadFields(lib, fields[..2]) == Ok(NOTHING.(commandId := Some("1"), action := Some(Lock)));
    assert Strings([JString("driver")]) == ["driver"];
  }

  lemma {:induction false} NeverWritten(trace: seq<Effect>)
    requires forall e :: e in trace && e.SetLocked? ==> !e.ok
    ensures !BrokerValue(trace)
  {
    if trace == [] {
    } else {
      NeverWritten(trace[..|trace| - 1]);
    }
  }

  // The signal need not match the lock: a command is granted and answered with success, and
  // the signal still says unlocked, when the write fails.
  lemma LockSignalExample(lib: Library)
    ensures var s := ServiceAfter(lib, [Received(LOCK_PAYLOAD, FAILING_WORLD)]);
            s.locked && !BrokerValue(s.trace) && Respond("1", Granted, true) in s.trace
  {
    var inputs := [Received(LOCK_PAYLOAD, FAILING_WORLD)];
    assert inputs[..|inputs| - 1] == [] && inputs[|inputs| - 1] == Received(LOCK_PAYLOAD, FAILING_WORLD);
    LockPayloadParses(lib);
    assert ServiceAfter(lib, []) == STARTED;
    assert Validation(LockCommand("1", Lock, ["driver"], None, None, None)) == None;
    var s := ServiceAfter(lib, inputs);
    assert s.trace
      == [ReadSpeed(Ok(Some(0.0))), ReadDoor(Ok(None)), SetLocked(true, false), Respond("1", Granted, true)];
    assert forall e :: e in s.trace && e.SetLocked? ==> !e.ok;
    NeverWritten(s.trace);
    assert s.trace[3] in s.trace;
  }

  lemma GrantedMeans(lib: Library, payload: Payload, w: World)
    ensures var parsed := ParseCommand(lib, payload);
            Grants(lib, payload, w) <==>
              parsed.Ok? && Validation(parsed.value) == None && VerdictOn(w, parsed.value) == Granted
  {
  }

  // The lock state is the action of the last granted command, or unlocked if there is none.
  lemma {:induction false} LockStateIsLastGranted(lib: Library, inputs: seq<Input>)
    ensures ServiceAfter(lib, inputs).locked <==> LastGranted(lib, inputs) == Some(Lock)
  {
    if inputs == [] {
    } else {
      LockStateIsLastGranted(lib, inputs[..|inputs| - 1]);
      var input := inputs[|inputs| - 1];
      if input.Received? {
        GrantedMeans(lib, input.payload, input.world);
      }
    }
  }

  // The responses among some effects.
  function Responses(effects: seq<Effect>): seq<Effect> {
    if effects == [] then []
    else
      var last := effects[|effects| - 1];
      Responses(effects[..|effects| - 1]) + if last.Respond? then [last] else []
  }

  lemma {:induction false} NoResponses(effects: seq<Effect>)
    requires forall e :: e in effects ==> !e.Respond?
    ensures Responses(effects) == []
  {
    if effects == [] {
    } else {
      NoResponses(effects[..|effects| - 1]);
    }
  }

  lemma {:induction false} OneResponse(effects: seq<Effect>, response: Effect)
    requires response.Respond? && forall e :: e in effects ==> !e.Respond?
    ensures Responses(effects + [response]) == [response]
  {
    var longer := effects + [response];
    assert longer[..|effects|] == effects;
    NoResponses(effects);
  }

  // What a payload is answered: at most one response is attempted.
  function AnswerTo(lib: Library, w: World, payload: Payload): Option<Effect> {
    match ParseCommand(lib, payload)
    case Err(InvalidJson) => None
    case Err(e) =>
      (match ExtractCommandId(payload)
       case Some(id) => Some(Respond(id, Refused(Reason(e)), w.responds))
       case None => None)
    case Ok(cmd) =>
      Some(Respond(cmd.commandId, if Validation(cmd).Some? then Refused(Reason(Validation(cmd).value))
        else VerdictOn(w, cmd), w.responds))
  }

  lemma {:induction false} CommandAnsweredOnce(w: World, cmd: LockCommand, locked: bool)
    ensures Responses(CommandEffects(w, cmd, locked)) == [Respond(cmd.commandId, VerdictOn(w, cmd), w.responds)]
  {
    var response := Respond(cmd.commandId, VerdictOn(w, cmd), w.responds);
    var effects := CommandEffects(w, cmd, locked);
    var before := effects[..|effects| - 1];
    assert effects == before + [response];
    OneResponse(before, response);
  }

  lemma {:induction false} AnsweredOnce(lib: Library, w: World, payload: Payload, locked: bool)
    ensures Responses(HandledEffects(lib, w, payload, locked))
            == if AnswerTo(lib, w, payload).Some? then [AnswerTo(lib, w, payload).value] else []
  {
    hide Responses, CommandEffects, VerdictOn, ParseCommand, ExtractCommandId, Validation;
    var parsed := ParseCommand(lib, payload);
    NoResponses([]);
    if parsed.Ok? && Validation(parsed.value).None? {
      CommandAnsweredOnce(w, parsed.value, locked);
    } else if AnswerTo(lib, w, payload).Some? {
      var answer := AnswerTo(lib, w, payload).value;
      OneResponse([], answer);
      assert [] + [answer] == [answer];
    }
  }

  // A payload that is an object gets a response exactly when it carries a command id as a
  // string, that string is not empty unless the payload parses, and the parser does not take
  // the payload for malformed JSON; the response carries that id.
  lemma AnsweredIff(lib: Library, w: World, payload: Payload)
    requires payload.Tree? && payload.json.JObject?
    ensures var parsed, id := ParseCommand(lib, payload), GetString(payload.json.fields, "command_id");
            && (AnswerTo(lib, w, payload).Some? <==>
              parsed != Err(InvalidJson) && id.Some? && (id.value != "" || parsed.Ok?))
            && (AnswerTo(lib, w, payload).Some? ==> AnswerTo(lib, w, payload).value.commandId == id.value)
  {
    ReadFieldsIff(lib, payload.json.fields);
  }

  // -------- what is done for each payload --------

  // A command in terms of the readings: what is read, written and answered, in order, and
  // the state of the lock afterwards.
  predicate IsCommandLog(w: World, cmd: LockCommand, locked: bool, effects: seq<Effect>, state: bool) {
    var id, speed, door := cmd.commandId, ReadSpeed(w.speed), ReadDoor(w.doorOpen);
    if cmd.action == Unlock then
      && effects == (if locked then [SetLocked(false, w.writes)] else []) + [Respond(id, Granted, w.responds)]
      && !state
    else if w.speed.Ok? && w.speed.value.Some? && w.speed.value.value >= 1.0 then
      effects == [speed, Respond(id, Refused("vehicle_moving"), w.responds)] && state == locked
    else if w.doorOpen == Ok(Some(true)) then
      effects == [speed, door, Respond(id, Refused("door_open"), w.responds)] && state == locked
    else
      && effects == [speed, door] + (if locked then [] else [SetLocked(true, w.writes)])
                    + [Respond(id, Granted, w.responds)]
      && state
  }

  predicate IsValid(cmd: LockCommand) {
    cmd.commandId != "" && cmd.doors != [] && forall d :: d in cmd.doors ==> d == "driver"
  }

  lemma CommandLog(lib: Library, w: World, payload: Payload, locked: bool)
    requires ParseCommand(lib, payload).Ok? && IsValid(ParseCommand(lib, payload).value)
    ensures IsCommandLog(w, ParseCommand(lib, payload).value, locked, HandledEffects(lib, w, payload, locked),
                         HandledState(lib, w, payload, locked))
  {
    hide ParseCommand;
    var cmd := ParseCommand(lib, payload).value;
    assert CommandEffects(w, cmd, locked) + [] == CommandEffects(w, cmd, locked);
  }

  // Malformed JSON is discarded.
  lemma MalformedDiscarded(lib: Library, w: World, locked: bool)
    ensures HandledEffects(lib, w, NotJson, locked) == [] && HandledState(lib, w, NotJson, locked) == locked
  {
  }

  // A command that parses but is not valid is refused, and nothing else is done.
  lemma InvalidRefused(lib: Library, w: World, payload: Payload, locked: bool)
    requires ParseCommand(lib, payload).Ok?
    requires !IsValid(ParseCommand(lib, payload).value)
    ensures var cmd := ParseCommand(lib, payload).value;
            var reason := if cmd.commandId != "" && cmd.doors != [] then "unsupported_door" else "invalid_command";
            HandledEffects(lib, w, payload, locked) == [Respond(cmd.commandId, Refused(reason), w.responds)]
    ensures HandledState(lib, w, payload, locked) == locked
  {
    hide ParseCommand;
  }

  lemma InvalidCommandRefused(lib: Library, w: World, payload: Payload, locked: bool)
    requires ParseCommand(lib, payload) == Err(InvalidCommand)
    ensures HandledState(lib, w, payload, locked) == locked
    ensures HandledEffects(lib, w, payload, locked)
            == match ExtractCommandId(payload)
               case Some(id) => [Respond(id, Refused("invalid_command"), w.responds)]
               case None => []
  {
    hide ParseCommand, ExtractCommandId;
  }

  // An object with an unknown action is refused as invalid if it carries a command id, and
  // nothing else is done, the lock included.
  lemma UnknownActionRefused(lib: Library, w: World, fields: Fields, i: nat, action: string, locked: bool)
    requires i < |fields| && fields[i] == ("action", JString(action)) && action != "lock" && action != "unlock"
    requires forall j :: 0 <= j < i && fields[j].0 == "action" ==> fields[j].1.JString?
    ensures var payload := Tree(JObject(fields));
            && HandledState(lib, w, payload, locked) == locked
            && HandledEffects(lib, w, payload, locked)
               == match Get(fields, "command_id")
                  case Some(JString(id)) =>
                    if id == "" then [] else [Respond(id, Refused("invalid_command"), w.responds)]
                  case _ => []
  {
    UnknownAction(lib, fields, i, action);
    InvalidCommandRefused(lib, w, Tree(JObject(fields)), locked);
    hide ParseCommand, ReadFields, Get, HandledEffects, HandledState;
  }

  // An object that parses acts as the string in its action field says.
  lemma ActsAsNamed(lib: Library, w: World, fields: Fields, locked: bool)
    requires ParseCommand(lib, Tree(JObject(fields))).Ok?
    ensures var cmd := ParseCommand(lib, Tree(JObject(fields))).value;
            && (Get(fields, "action") == Some(JString("lock")) ==> cmd.action == Lock)
            && (Get(fields, "action") == Some(JString("unlock")) ==> cmd.action == Unlock)
            && (Get(fields, "action").Some? && Get(fields, "action").value.JString? ==>
                  Get(fields, "action").value.s in {"lock", "unlock"})
  {
    ParsesIff(lib, fields);
    hide ParseCommand, Get, FieldsFine;
  }

  // What is due for a payload, by what the service takes it for.
  predicate IsDueFor(lib: Library, w: World, payload: Payload, locked: bool, effects: seq<Effect>, state: bool) {
    match ParseCommand(lib, payload)
    case Ok(cmd) =>
      if IsValid(cmd) then IsCommandLog(w, cmd, locked, effects, state)
      else
        var reason := if cmd.commandId != "" && cmd.doors != [] then "unsupported_door" else "invalid_command";
        effects == [Respond(cmd.commandId, Refused(reason), w.responds)] && state == locked
    case Err(InvalidJson) => effects == [] && state == locked
    case Err(e) =>
      var reason := if e == InvalidCommand then "invalid_command" else "unsupported_door";
      && state == locked
      && effects == (match ExtractCommandId(payload)
                     case Some(id) => [Respond(id, Refused(reason), w.responds)]
                     case None => [])
  }

  lemma PayloadDue(lib: Library, w: World, payload: Payload, locked: bool)
    ensures IsDueFor(lib, w, payload, locked, HandledEffects(lib, w, payload, locked),
                     HandledState(lib, w, payload, locked))
  {
    match ParseCommand(lib, payload)
    case Ok(cmd) =>
      if IsValid(cmd) {
        CommandLog(lib, w, payload, locked);
      } else {
        InvalidRefused(lib, w, payload, locked);
      }
    case Err(_) =>
  }

  // At every position of every input sequence, the service does exactly what is due for a
  // payload it receives while it serves, and nothing for any other input.
  lemma InputServed(lib: Library, inputs: seq<Input>, i: nat)
    requires i < |inputs|
    ensures var before, after := ServiceAfter(lib, inputs[..i]), ServiceAfter(lib, inputs[..i + 1]);
            && before.trace <= after.trace
            && var effects := after.trace[|before.trace|..];
            if before.status == Serving && inputs[i].Received? then
              IsDueFor(lib, inputs[i].world, inputs[i].payload, before.locked, effects, after.locked)
            else effects == [] && after.locked == before.locked
  {
    assert inputs[..i + 1][..i] == inputs[..i];
    var before, after := ServiceAfter(lib, inputs[..i]), ServiceAfter(lib, inputs[..i + 1]);
    if before.status == Serving && inputs[i].Received? {
      var w, payload := inputs[i].world, inputs[i].payload;
      PayloadDue(lib, w, payload, before.locked);
      assert after.trace[|before.trace|..] == HandledEffects(lib, w, payload, before.locked);
    }
    hide HandledEffects, HandledState, IsDueFor;
  }

  // Not every payload that is valid JSON is answered: an object without a command id is not.
  lemma UnansweredExample(lib: Library, w: World, locked: bool)
    ensures Responses(HandledEffects(lib, w, Tree(JObject([("action", JString("lock"))])), locked)) == []
  {
    var payload := Tree(JObject([("action", JString("lock"))]));
    var fields := payload.json.fields;
    assert fields[..0] == [];
    AnsweredIff(lib, w, payload);
    assert GetString(fields, "command_id") == None;
    AnsweredOnce(lib, w, payload, locked);
  }

  lemma AcceptedId(payload: Payload)
    requires ValidateCommandPayload(payload).Ok?
    ensures ExtractCommandId(payload) == Some(ValidateCommandPayload(payload).value.commandId)
    ensures ValidateCommandPayload(payload).value.commandId != ""
  {
  }

  // An accepted payload is answered with the accepted id.
  lemma AcceptedAnswer(lib: Library, w: World, payload: Payload)
    requires ValidateCommandPayload(payload).Ok?
    ensures AnswerTo(lib, w, payload).Some?
    ensures AnswerTo(lib, w, payload).value.commandId == ValidateCommandPayload(payload).value.commandId != ""
  {
    AcceptedId(payload);
    AcceptedParses(lib, payload);
    hide ParseCommand, ReadFields, Validation, VerdictOn, ValidateCommandPayload, GetString;
  }

  // Every payload that the gateway client accepts makes the service attempt exactly one
  // response, which carries the accepted non-empty command id, in every state of the service
  // and whatever the broker answers.
  lemma AcceptedIsAnswered(lib: Library, w: World, payload: Payload, locked: bool)
    requires ValidateCommandPayload(payload).Ok?
    ensures var responses := Responses(HandledEffects(lib, w, payload, locked));
            var accepted := ValidateCommandPayload(payload).value;
            |responses| == 1 && responses[0].commandId == accepted.commandId != ""
  {
    AcceptedAnswer(lib, w, payload);
    AnsweredOnce(lib, w, payload, locked);
    hide AnswerTo, HandledEffects, Responses, ValidateCommandPayload;
  }

  // The verdict an accepted payload gets.
  lemma AcceptedVerdict(lib: Library, w: World, payload: Payload)
    requires ValidateCommandPayload(payload).Ok?
    ensures AnswerTo(lib, w, payload).Some?
    ensures var accepted := ValidateCommandPayload(payload).value;
            AnswerTo(lib, w, payload).value.verdict ==
              if !OptionalFieldsFine(payload.json.fields) then Refused("invalid_command")
              else if exists d :: d in accepted.doors && d != "driver" then Refused("unsupported_door")
              else if accepted.doors == [] then Refused("invalid_command")
              else if accepted.action == "unlock" then Granted
              else if w.speed.Ok? && w.speed.value.Some? && w.speed.value.value >= 1.0 then Refused("vehicle_moving")
              else if w.doorOpen == Ok(Some(true)) then Refused("door_open")
              else Granted
  {
    AcceptedParses(lib, payload);
  }

  // -------- giving up on the subscription --------

  // How often the stream has ended since the last payload.
  function EndsInARow(inputs: seq<Input>): nat {
    if inputs == [] then 0
    else
      match inputs[|inputs| - 1]
      case Received(_, _) => 0
      case StreamEnded(_) => EndsInARow(inputs[..|inputs| - 1]) + 1
      case ShutdownSignal => EndsInARow(inputs[..|inputs| - 1])
  }

  // The stream has never ended more than three times in a row.
  ghost predicate EndsBounded(inputs: seq<Input>) {
    forall k :: 0 <= k <= |inputs| ==> EndsInARow(inputs[..k]) <= 3
  }

  lemma EndsBoundedStep(inputs: seq<Input>, input: Input)
    ensures EndsBounded(inputs + [input]) <==>
            EndsBounded(inputs) && EndsInARow(inputs + [input]) <= 3
  {
    hide EndsInARow;
    var longer := inputs + [input];
    assert longer[..|longer|] == longer;
    assert forall k :: 0 <= k <= |inputs| ==> longer[..k] == inputs[..k];
  }

  // The service keeps serving exactly while it has not been told to stop, every attempt to
  // resubscribe has succeeded, and the stream has never ended more than three times in a row.
  lemma {:induction false} ServesWhile(lib: Library, inputs: seq<Input>)
    ensures ServiceAfter(lib, inputs).status == Serving <==>
            ShutdownSignal !in inputs && StreamEnded(false) !in inputs && EndsBounded(inputs)
    ensures ServiceAfter(lib, inputs).status == Serving ==> ServiceAfter(lib, inputs).resubscribes == EndsInARow(inputs)
  {
    if inputs == [] {
    } else {
      var init, input := inputs[..|inputs| - 1], inputs[|inputs| - 1];
      assert inputs == init + [input];
      ServesWhile(lib, init);
      EndsBoundedStep(init, input);
      hide EndsBounded, HandledEffects, HandledState;
    }
  }

  // How the service ended: by the input that made it stop serving.
  lemma EndsAs(lib: Library, inputs: seq<Input>)
    requires inputs != []
    requires ServiceAfter(lib, inputs[..|inputs| - 1]).status == Serving && ServiceAfter(lib, inputs).status != Serving
    ensures ServiceAfter(lib, inputs).status ==
              match inputs[|inputs| - 1]
              case ShutdownSignal => ShutDown
              case StreamEnded(_) => if EndsInARow(inputs) > 3 then SubscriptionLost else ResubscribeFailed
              case Received(_, _) => Serving
  {
    ServesWhile(lib, inputs[..|inputs| - 1]);
    hide HandledEffects, HandledState;
  }

  // -------- all answers --------

  // The answers to the payloads received while the service serves.
  ghost function Answers(lib: Library, inputs: seq<Input>): seq<Effect> {
    if inputs == [] then []
    else
      var init, last := inputs[..|inputs| - 1], inputs[|inputs| - 1];
      Answers(lib, init)
      + if last.Received? && ServiceAfter(lib, init).status == Serving && AnswerTo(lib, last.world, last.payload).Some?
        then [AnswerTo(lib, last.world, last.payload).value] else []
  }

  lemma {:induction false} ResponsesConcat(first: seq<Effect>, second: seq<Effect>)
    ensures Responses(first + second) == Responses(first) + Responses(second)
    decreases |second|
  {
    if second == [] {
      assert first + second == first;
    } else {
      var init := second[..|second| - 1];
      assert (first + second)[..|first + second| - 1] == first + init;
      ResponsesConcat(first, init);
    }
  }

  // The service answers every payload it receives, in order, and says nothing else.
  lemma {:induction false} AnswersInOrder(lib: Library, inputs: seq<Input>)
    ensures Responses(ServiceAfter(lib, inputs).trace) == Answers(lib, inputs)
  {
    if inputs == [] {
    } else {
      var init, last := inputs[..|inputs| - 1], inputs[|inputs| - 1];
      AnswersInOrder(lib, init);
      if last.Received? && ServiceAfter(lib, init).status == Serving {
        var s := ServiceAfter(lib, init);
        ResponsesConcat(s.trace, HandledEffects(lib, last.world, last.payload, s.locked));
        AnsweredOnce(lib, last.world, last.payload, s.locked);
      }
      hide HandledEffects, HandledState, AnswerTo, Responses;
    }
  }
}
