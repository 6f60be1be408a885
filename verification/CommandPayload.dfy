/**
 The two validators that a lock command passes: the cloud gateway client's, which works on
 the generic JSON tree, and the locking service's, which deserializes into a record.

 Objects keep their fields in textual order with repetitions: a generic tree lookup sees
 the last field of a name, while deserializing into a record rejects a repeated one.
 */
module CommandPayload {
  import opened Wrappers

  datatype Json =
    | JNull
    | JBool(b: bool)
    | JInt(n: int)
    | JFloat
    | JString(s: string)
    | JArray(items: seq<Json>)
    | JObject(fields: seq<(string, Json)>)

  // A payload is either the tree it parses to or not JSON at all.
  datatype Payload = NotJson | Tree(json: Json)

  type Fields = seq<(string, Json)>

  // Generic lookup: the last field of that name.
  function Get(fields: Fields, key: string): Option<Json> {
    if fields == [] then None
    else
      var last := fields[|fields| - 1];
      if last.0 == key then Some(last.1) else Get(fields[..|fields| - 1], key)
  }

  function GetString(fields: Fields, key: string): Option<string> {
    match Get(fields, key)
    case Some(JString(s)) => Some(s)
    case _ => None
  }

  function Count(fields: Fields, key: string): nat {
    if fields == [] then 0
    else Count(fields[..|fields| - 1], key) + if fields[|fields| - 1].0 == key then 1 else 0
  }

  predicate AllStrings(items: seq<Json>) {
    forall i :: 0 <= i < |items| ==> items[i].JString?
  }

  function Strings(items: seq<Json>): (r: seq<string>)
    requires AllStrings(items)
    ensures |r| == |items| && forall i :: 0 <= i < |items| ==> r[i] == items[i].s
  {
    seq(|items|, i requires 0 <= i < |items| => items[i].s)
  }

  // -------- the client's validation --------

  datatype ValidationError = InvalidPayload | MissingField(name: string) | InvalidAction(action: string)

  datatype AcceptedPayload = AcceptedPayload(commandId: string, action: string, doors: seq<string>)

  function ValidateCommandPayload(payload: Payload): Result<AcceptedPayload, ValidationError> {
    if payload.NotJson? || !payload.json.JObject? then Err(InvalidPayload)
    else
      var fields := payload.json.fields;
      match GetString(fields, "command_id")
      case None => Err(MissingField("command_id"))
      case Some(id) =>
        if id == "" then Err(MissingField("command_id"))
        else
          match GetString(fields, "action")
          case None => Err(MissingField("action"))
          case Some(action) =>
            if action != "lock" && action != "unlock" then Err(InvalidAction(action))
            else
              match Get(fields, "doors")
              case Some(JArray(items)) =>
                // deserializing into the typed payload
                if Count(fields, "command_id") == 1 && Count(fields, "action") == 1 && Count(fields, "doors") == 1
                  && AllStrings(items)
                then Ok(AcceptedPayload(id, action, Strings(items)))
                else Err(InvalidPayload)
              case _ => Err(MissingField("doors"))
  }

  // -------- the locking service's parsing --------

  datatype Action = Lock | Unlock

  datatype LockCommand = LockCommand(
    commandId: string,
    action: Action,
    doors: seq<string>,
    source: Option<string>,
    vin: Option<string>,
    timestamp: Option<int>)

  datatype CommandError = InvalidJson | InvalidCommand | UnsupportedDoor

  function Reason(e: CommandError): string {
    match e
    case InvalidJson => "invalid_json"
    case InvalidCommand => "invalid_command"
    case UnsupportedDoor => "unsupported_door"
  }

  // How the deserializer treats shapes that the service's types leave to the library: an
  // action that is not a string, and a payload that is not an object.
  datatype Library = Library(
    otherAction: Json -> Result<Action, CommandError>,
    otherPayload: Json -> Result<LockCommand, CommandError>)

  // A record under construction; an outer None means that the field has not occurred.
  datatype Partial = Partial(
    commandId: Option<string>,
    action: Option<Action>,
    doors: Option<seq<string>>,
    source: Option<Option<string>>,
    vin: Option<Option<string>>,
    timestamp: Option<Option<int>>)

  const NOTHING := Partial(None, None, None, None, None, None)

  function ParseAction(lib: Library, v: Json): Result<Action, CommandError> {
    if !v.JString? then lib.otherAction(v)
    else if v.s == "lock" then Ok(Lock)
    else if v.s == "unlock" then Ok(Unlock)
    else Err(InvalidCommand)
  }

  predicate IsOptionalString(v: Json) {
    v.JNull? || v.JString?
  }

  function OptionalString(v: Json): Option<string>
    requires IsOptionalString(v)
  {
    if v.JString? then Some(v.s) else None
  }

  predicate IsOptionalInt(v: Json) {
    v.JNull? || (v.JInt? && -0x8000_0000_0000_0000 <= v.n < 0x8000_0000_0000_0000)
  }

  function OptionalInt(v: Json): Option<int>
    requires IsOptionalInt(v)
  {
    if v.JInt? then Some(v.n) else None
  }

  // One more field; fields of other names are ignored.
  function AddField(lib: Library, acc: Partial, name: string, v: Json): Result<Partial, CommandError> {
    if name == "command_id" then
      if acc.commandId.None? && v.JString? then Ok(acc.(commandId := Some(v.s))) else Err(InvalidCommand)
    else if name == "action" then
      if acc.action.Some? then Err(InvalidCommand)
      else
        match ParseAction(lib, v)
        case Ok(action) => Ok(acc.(action := Some(action)))
        case Err(e) => Err(e)
    else if name == "doors" then
      if acc.doors.None? && v.JArray? && AllStrings(v.items) then Ok(acc.(doors := Some(Strings(v.items))))
        else Err(InvalidCommand)
    else if name == "source" then
      if acc.source.None? && IsOptionalString(v) then Ok(acc.(source := Some(OptionalString(v))))
        else Err(InvalidCommand)
    else if name == "vin" then
      if acc.vin.None? && IsOptionalString(v) then Ok(acc.(vin := Some(OptionalString(v)))) else Err(InvalidCommand)
    else if name == "timestamp" then
      if acc.timestamp.None? && IsOptionalInt(v) then Ok(acc.(timestamp := Some(OptionalInt(v))))
        else Err(InvalidCommand)
    else Ok(acc)
  }

  // Fields are read in order and the first error is the answer.
  function ReadFields(lib: Library, fields: Fields): Result<Partial, CommandError> {
    if fields == [] then Ok(NOTHING)
    else
      match ReadFields(lib, fields[..|fields| - 1])
      case Err(e) => Err(e)
      case Ok(acc) => AddField(lib, acc, fields[|fields| - 1].0, fields[|fields| - 1].1)
  }

  function Flatten<T>(o: Option<Option<T>>): Option<T> {
    if o.Some? then o.value else None
  }

  function ParseCommand(lib: Library, payload: Payload): Result<LockCommand, CommandError> {
    if payload.NotJson? then Err(InvalidJson)
    else if !payload.json.JObject? then lib.otherPayload(payload.json)
    else
      match ReadFields(lib, payload.json.fields)
      case Err(e) => Err(e)
      case Ok(Partial(Some(id), Some(action), Some(doors), source, vin, timestamp)) =>
        Ok(LockCommand(id, action, doors, Flatten(source), Flatten(vin), Flatten(timestamp)))
      case Ok(_) => Err(InvalidCommand)
  }

  function Validation(cmd: LockCommand): Option<CommandError> {
    if cmd.commandId == "" then Some(InvalidCommand)
    else if exists d :: d in cmd.doors && d != "driver" then Some(UnsupportedDoor)
    else if cmd.doors == [] then Some(InvalidCommand)
    else None
  }

  // The loop over the doors returns at the first unsupported one.
  method ValidateCommand(cmd: LockCommand) returns (r: Option<CommandError>)
    ensures r == None <==> cmd.commandId != "" && cmd.doors != [] && forall d :: d in cmd.doors ==> d == "driver"
    ensures r == Some(UnsupportedDoor) <==> cmd.commandId != "" && exists d :: d in cmd.doors && d != "driver"
    ensures r != Some(InvalidJson)
    ensures r == Validation(cmd)
  {
    if cmd.commandId == "" {
      return Some(InvalidCommand);
    }
    for i := 0 to |cmd.doors|
      invariant forall j :: 0 <= j < i ==> cmd.doors[j] == "driver"
    {
      if cmd.doors[i] != "driver" {
        assert cmd.doors[i] in cmd.doors;
        return Some(UnsupportedDoor);
      }
    }
    assert cmd.doors != [] ==> cmd.doors[0] in cmd.doors;
    if "driver" !in cmd.doors {
      return Some(InvalidCommand);
    }
    return None;
  }

  // The id to which a failure is reported when parsing fails.
  function ExtractCommandId(payload: Payload): Option<string> {
    if payload.NotJson? || !payload.json.JObject? then None
    else
      match GetString(payload.json.fields, "command_id")
      case Some(id) => if id == "" then None else Some(id)
      case None => None
  }

  // -------- what parsing amounts to --------

  predicate FieldFine(lib: Library, name: string, v: Json) {
    match name
    case "command_id" => v.JString?
    case "action" => v == JString("lock") || v == JString("unlock") || (!v.JString? && lib.otherAction(v).Ok?)
    case "doors" => v.JArray? && forall i :: 0 <= i < |v.items| ==> v.items[i].JString?
    case "source" => v.JNull? || v.JString?
    case "vin" => v.JNull? || v.JString?
    case "timestamp" => v.JNull? || (v.JInt? && -9223372036854775808 <= v.n <= 9223372036854775807)
    case _ => true
  }

  const NAMES := {"command_id", "action", "doors", "source", "vin", "timestamp"}

  // Every field has the right type and none of the record's fields is repeated.
  ghost predicate FieldsFine(lib: Library, fields: Fields) {
    && (forall i :: 0 <= i < |fields| ==> FieldFine(lib, fields[i].0, fields[i].1))
    && (forall name :: name in NAMES ==> Count(fields, name) <= 1)
  }

  // A string is one of the two names; anything else is up to the library.
  predicate IsFoundAction(lib: Library, found: Option<Json>, action: Option<Action>) {
    match found
    case None => action == None
    case Some(JString(s)) => (s == "lock" && action == Some(Lock)) || (s == "unlock" && action == Some(Unlock))
    case Some(v) => lib.otherAction(v).Ok? && action == Some(lib.otherAction(v).value)
  }

  ghost predicate AreFoundDoors(found: Option<Json>, doors: Option<seq<string>>) {
    match found
    case Some(JArray(items)) =>
      doors.Some? && |doors.value| == |items| && forall i :: 0 <= i < |items| ==> items[i] == JString(doors.value[i])
    case Some(_) => false
    case None => doors == None
  }

  predicate IsFoundText(found: Option<Json>, text: Option<Option<string>>) {
    match found
    case None => text == None
    case Some(JString(s)) => text == Some(Some(s))
    case Some(v) => v.JNull? && text == Some(None)
  }

  predicate IsFoundInt(found: Option<Json>, n: Option<Option<int>>) {
    match found
    case None => n == None
    case Some(JInt(i)) => n == Some(Some(i))
    case Some(v) => v.JNull? && n == Some(None)
  }

  // The record under construction holds what a generic lookup would find.
  ghost predicate Holds(lib: Library, acc: Partial, fields: Fields) {
    && acc.commandId == GetString(fields, "command_id")
    && IsFoundAction(lib, Get(fields, "action"), acc.action)
    && AreFoundDoors(Get(fields, "doors"), acc.doors)
    && IsFoundText(Get(fields, "source"), acc.source)
    && IsFoundText(Get(fields, "vin"), acc.vin)
    && IsFoundInt(Get(fields, "timestamp"), acc.timestamp)
  }

  lemma {:induction false} CountIsPresence(fields: Fields, key: string)
    ensures Count(fields, key) > 0 <==> Get(fields, key).Some?
  {
    if fields == [] {
    } else {
      CountIsPresence(fields[..|fields| - 1], key);
    }
  }

  lemma {:induction false} GetFine(lib: Library, fields: Fields, key: string)
    requires forall i :: 0 <= i < |fields| ==> FieldFine(lib, fields[i].0, fields[i].1)
    ensures Get(fields, key).Some? ==> FieldFine(lib, key, Get(fields, key).value)
  {
    if fields == [] {
    } else {
      GetFine(lib, fields[..|fields| - 1], key);
    }
  }

  predicate HasField(acc: Partial, name: string) {
    match name
    case "command_id" => acc.commandId.Some?
    case "action" => acc.action.Some?
    case "doors" => acc.doors.Some?
    case "source" => acc.source.Some?
    case "vin" => acc.vin.Some?
    case "timestamp" => acc.timestamp.Some?
    case _ => false
  }

  lemma AddFieldFine(lib: Library, acc: Partial, name: string, v: Json)
    ensures AddField(lib, acc, name, v).Ok? <==> FieldFine(lib, name, v) && !HasField(acc, name)
  {
    hide Strings;
  }

  lemma HeldField(lib: Library, init: Fields, acc: Partial, name: string)
    requires Holds(lib, acc, init) && FieldsFine(lib, init)
    ensures HasField(acc, name) <==> name in NAMES && Get(init, name).Some?
  {
    GetFine(lib, init, name);
    hide AllStrings, Get, FieldsFine;
  }

  lemma AddFieldOk(lib: Library, init: Fields, acc: Partial, name: string, v: Json)
    requires Holds(lib, acc, init) && FieldsFine(lib, init)
    ensures AddField(lib, acc, name, v).Ok? <==> FieldFine(lib, name, v) && (name in NAMES ==> Get(init, name) == None)
  {
    AddFieldFine(lib, acc, name, v);
    HeldField(lib, init, acc, name);
    hide FieldFine, HasField, AddField, Holds, FieldsFine, Get;
  }

  lemma GetAppended(init: Fields, name: string, v: Json, key: string)
    ensures Get(init + [(name, v)], key) == if name == key then Some(v) else Get(init, key)
  {
    var longer := init + [(name, v)];
    assert longer[..|longer| - 1] == init && longer[|longer| - 1] == (name, v);
  }

  lemma AddFieldHolds(lib: Library, init: Fields, acc: Partial, name: string, v: Json)
    requires Holds(lib, acc, init) && AddField(lib, acc, name, v).Ok?
    ensures Holds(lib, AddField(lib, acc, name, v).value, init + [(name, v)])
  {
    hide Get;
    GetAppended(init, name, v, "command_id");
    GetAppended(init, name, v, "action");
    GetAppended(init, name, v, "doors");
    GetAppended(init, name, v, "source");
    GetAppended(init, name, v, "vin");
    GetAppended(init, name, v, "timestamp");
  }

  lemma FinePrefix(lib: Library, init: Fields, name: string, v: Json)
    ensures FieldsFine(lib, init + [(name, v)])
            <==> FieldsFine(lib, init) && FieldFine(lib, name, v) && (name in NAMES ==> Get(init, name) == None)
  {
    var longer := init + [(name, v)];
    assert longer[..|longer| - 1] == init;
    CountIsPresence(init, name);
    assert longer[|init|] == (name, v);
    assert forall i :: 0 <= i < |init| ==> longer[i] == init[i];
    assert forall key :: Count(longer, key) == Count(init, key) + if name == key then 1 else 0;
  }

  // Reading succeeds exactly on objects whose fields are well typed and not repeated, and
  // then yields what generic lookups yield.
  lemma {:induction false} ReadFieldsIff(lib: Library, fields: Fields)
    ensures ReadFields(lib, fields).Ok? <==> FieldsFine(lib, fields)
    ensures ReadFields(lib, fields).Ok? ==> Holds(lib, ReadFields(lib, fields).value, fields)
  {
    if fields == [] {
    } else {
      var init := fields[..|fields| - 1];
      var (name, v) := fields[|fields| - 1];
      ReadFieldsIff(lib, init);
      assert fields == init + [(name, v)];
      FinePrefix(lib, init, name, v);
      if FieldsFine(lib, init) {
        AddFieldOk(lib, init, ReadFields(lib, init).value, name, v);
        if AddField(lib, ReadFields(lib, init).value, name, v).Ok? {
          AddFieldHolds(lib, init, ReadFields(lib, init).value, name, v);
        }
      }
    }
  }

  // -------- main results --------

  predicate IsTimestamp(v: Json) {
    v.JNull? || (v.JInt? && -9223372036854775808 <= v.n <= 9223372036854775807)
  }

  // The optional fields, which the client does not look at.
  ghost predicate OptionalFieldsFine(fields: Fields) {
    && (forall i :: 0 <= i < |fields| ==>
          && (fields[i].0 in {"source", "vin"} ==> fields[i].1.JNull? || fields[i].1.JString?)
          && (fields[i].0 == "timestamp" ==> IsTimestamp(fields[i].1)))
    && Count(fields, "source") <= 1 && Count(fields, "vin") <= 1 && Count(fields, "timestamp") <= 1
  }

  ghost predicate RequiredFine(fields: Fields) {
    && Count(fields, "command_id") == 1 && GetString(fields, "command_id").Some?
    && Count(fields, "action") == 1 && GetString(fields, "action") in {Some("lock"), Some("unlock")}
    && Count(fields, "doors") == 1 && Get(fields, "doors").Some? && Get(fields, "doors").value.JArray?
    && forall i :: 0 <= i < |Get(fields, "doors").value.items| ==> Get(fields, "doors").value.items[i].JString?
  }

  lemma {:induction false} Occurs(fields: Fields, key: string, i: nat)
    requires i < |fields| && fields[i].0 == key
    ensures Count(fields, key) >= 1
  {
    if i >= |fields| - 1 {
    } else {
      Occurs(fields[..|fields| - 1], key, i);
    }
  }

  lemma {:induction false} OnlyField(fields: Fields, key: string, i: nat)
    requires i < |fields| && fields[i].0 == key && Count(fields, key) == 1
    ensures Get(fields, key) == Some(fields[i].1)
  {
    var init := fields[..|fields| - 1];
    if i >= |fields| - 1 {
    } else {
      Occurs(init, key, i);
      OnlyField(init, key, i);
    }
  }

  lemma AcceptedFine(lib: Library, fields: Fields)
    requires RequiredFine(fields)
    ensures FieldsFine(lib, fields) <==> OptionalFieldsFine(fields)
  {
    forall i | 0 <= i < |fields| && fields[i].0 in {"command_id", "action", "doors"}
      ensures FieldFine(lib, fields[i].0, fields[i].1)
    {
      OnlyField(fields, fields[i].0, i);
    }
    if FieldsFine(lib, fields) {
      forall i | 0 <= i < |fields|
        ensures fields[i].0 in {"source", "vin"} ==> fields[i].1.JNull? || fields[i].1.JString?
        ensures fields[i].0 == "timestamp" ==> IsTimestamp(fields[i].1)
      {
        assert FieldFine(lib, fields[i].0, fields[i].1);
      }
      assert "source" in NAMES && "vin" in NAMES && "timestamp" in NAMES;
    }
  }

  // No field of an accepted payload makes the library decide, so every error is the same.
  lemma {:induction false} AcceptedErrors(lib: Library, fields: Fields)
    requires forall i :: 0 <= i < |fields| && fields[i].0 == "action" ==> fields[i].1.JString?
    ensures ReadFields(lib, fields).Ok? || ReadFields(lib, fields) == Err(InvalidCommand)
  {
    if fields == [] {
    } else {
      AcceptedErrors(lib, fields[..|fields| - 1]);
    }
  }

  lemma AcceptedError(lib: Library, fields: Fields)
    requires RequiredFine(fields)
    ensures ReadFields(lib, fields).Ok? || ReadFields(lib, fields) == Err(InvalidCommand)
  {
    forall i | 0 <= i < |fields| && fields[i].0 == "action" ensures fields[i].1.JString? {
      OnlyField(fields, "action", i);
    }
    AcceptedErrors(lib, fields);
  }

  // A payload that the client accepts parses in the service exactly when its optional fields
  // are fine, and then to the command the client saw; otherwise the error is InvalidCommand.
  // Neither depends on how the library treats other shapes.
  lemma AcceptedParses(lib: Library, payload: Payload)
    requires ValidateCommandPayload(payload).Ok?
    ensures payload.Tree? && payload.json.JObject?
    ensures var accepted := ValidateCommandPayload(payload).value;
            var parsed := ParseCommand(lib, payload);
            if OptionalFieldsFine(payload.json.fields)
            then parsed.Ok? && parsed.value.commandId == accepted.commandId
                 && parsed.value.action == (if accepted.action == "lock" then Lock else Unlock)
                 && parsed.value.doors == accepted.doors
            else parsed == Err(InvalidCommand)
  {
    var fields := payload.json.fields;
    ReadFieldsIff(lib, fields);
    AcceptedFine(lib, fields);
    AcceptedError(lib, fields);
  }

  // -------- what lookups and counts mean --------

  // A lookup finds the last field of the name.
  lemma {:induction false} GetIsLast(fields: Fields, key: string, v: Json)
    ensures Get(fields, key) == Some(v) <==>
            exists i :: 0 <= i < |fields| && fields[i] == (key, v) && forall j :: i < j < |fields| ==>
              fields[j].0 != key
  {
    if fields == [] {
    } else {
      var last := |fields| - 1;
      GetIsLast(fields[..last], key, v);
      if fields[last].0 != key && Get(fields[..last], key) == Some(v) {
        var i :| 0 <= i < last && fields[..last][i] == (key, v) && forall j :: i < j < last ==>
          fields[..last][j].0 != key;
        assert fields[i] == (key, v) && forall j :: i < j < |fields| ==> fields[j].0 != key;
      }
      if i :| 0 <= i < |fields| && fields[i] == (key, v) && forall j :: i < j < |fields| ==> fields[j].0 != key {
        if i < last {
          assert fields[..last][i] == (key, v) && fields[last].0 != key;
        }
      }
    }
  }

  ghost predicate IsAbsent(fields: Fields, key: string) {
    forall j :: 0 <= j < |fields| ==> fields[j].0 != key
  }

  ghost predicate OccursOnlyAt(fields: Fields, key: string, i: nat) {
    i < |fields| && fields[i].0 == key && forall j :: 0 <= j < |fields| && j != i ==> fields[j].0 != key
  }

  lemma OneMoreField(init: Fields, field: (string, Json), key: string, i: nat)
    ensures IsAbsent(init + [field], key) <==> IsAbsent(init, key) && field.0 != key
    ensures OccursOnlyAt(init + [field], key, i) <==>
            if i == |init| then IsAbsent(init, key) && field.0 == key else OccursOnlyAt(init, key, i) && field.0 != key
  {
    var longer := init + [field];
    assert longer[|init|] == field && forall j :: 0 <= j < |init| ==> longer[j] == init[j];
  }

  lemma OnlyWithin(fields: Fields, key: string, i: nat)
    requires OccursOnlyAt(fields, key, i)
    ensures i < |fields|
  {
  }

  // A name counted once occurs at exactly one place.
  lemma {:induction false} CountIsOne(fields: Fields, key: string)
    ensures Count(fields, key) == 0 <==> IsAbsent(fields, key)
    ensures Count(fields, key) == 1 <==> exists i: nat :: OccursOnlyAt(fields, key, i)
  {
    if fields == [] {
    } else {
      var init, field := fields[..|fields| - 1], fields[|fields| - 1];
      assert fields == init + [field];
      CountIsOne(init, key);
      forall i: nat
        ensures OccursOnlyAt(fields, key, i) <==>
                if i == |init| then IsAbsent(init, key) && field.0 == key
                else OccursOnlyAt(init, key, i) && field.0 != key
      {
        OneMoreField(init, field, key, i);
      }
      OneMoreField(init, field, key, 0);
      hide IsAbsent, OccursOnlyAt;
      if i: nat :| OccursOnlyAt(init, key, i) {
        assert i != |init| by {
          OnlyWithin(init, key, i);
        }
      }
      assert OccursOnlyAt(fields, key, |init|) <==> IsAbsent(init, key) && field.0 == key;
    }
  }

  // When the client accepts a payload, and what it then passes on.
  lemma ClientAccepts(payload: Payload)
    ensures ValidateCommandPayload(payload).Ok? <==>
            && payload.Tree? && payload.json.JObject? && RequiredFine(payload.json.fields)
            && GetString(payload.json.fields, "command_id") != Some("")
    ensures ValidateCommandPayload(payload).Ok? ==>
              var accepted, fields := ValidateCommandPayload(payload).value, payload.json.fields;
              && Get(fields, "command_id") == Some(JString(accepted.commandId))
              && Get(fields, "action") == Some(JString(accepted.action))
              && AreFoundDoors(Get(fields, "doors"), Some(accepted.doors))
  {
  }

  // Which error it answers otherwise: the first of its checks that fails.
  lemma ClientRejects(payload: Payload)
    requires ValidateCommandPayload(payload).Err?
    ensures var error := ValidateCommandPayload(payload).error;
            if payload.NotJson? || !payload.json.JObject? then error == InvalidPayload
            else
              var fields := payload.json.fields;
              var id, action := GetString(fields, "command_id"), GetString(fields, "action");
              if id == None || id == Some("") then error == MissingField("command_id")
              else if action == None then error == MissingField("action")
              else if action.value !in {"lock", "unlock"} then error == InvalidAction(action.value)
              else if Get(fields, "doors") == None || !Get(fields, "doors").value.JArray?
                then error == MissingField("doors")
              else error == InvalidPayload
  {
  }

  // What the service understands, field by field.
  ghost predicate Understood(lib: Library, fields: Fields, cmd: LockCommand) {
    && Get(fields, "command_id") == Some(JString(cmd.commandId))
    && Get(fields, "action").Some? && IsFoundAction(lib, Get(fields, "action"), Some(cmd.action))
    && Get(fields, "doors").Some? && AreFoundDoors(Get(fields, "doors"), Some(cmd.doors))
    && (cmd.source == match Get(fields, "source") case Some(JString(s)) => Some(s) case _ => None)
    && (cmd.vin == match Get(fields, "vin") case Some(JString(s)) => Some(s) case _ => None)
    && (cmd.timestamp == match Get(fields, "timestamp") case Some(JInt(n)) => Some(n) case _ => None)
  }

  lemma HeldIsUnderstood(lib: Library, fields: Fields, acc: Partial)
    requires Holds(lib, acc, fields) && FieldsFine(lib, fields)
    ensures acc.commandId.Some? <==> Get(fields, "command_id").Some?
    ensures acc.action.Some? <==> Get(fields, "action").Some?
    ensures acc.doors.Some? <==> Get(fields, "doors").Some?
    ensures acc.commandId.Some? && acc.action.Some? && acc.doors.Some? ==>
              Understood(lib, fields, LockCommand(acc.commandId.value, acc.action.value, acc.doors.value,
                                                  Flatten(acc.source), Flatten(acc.vin), Flatten(acc.timestamp)))
  {
    GetFine(lib, fields, "command_id");
    hide Get, FieldsFine;
  }

  // An object parses exactly when its fields are fine and the required ones are there, and
  // then to what they say.
  lemma ParsesIff(lib: Library, fields: Fields)
    ensures var parsed := ParseCommand(lib, Tree(JObject(fields)));
            && (parsed.Ok? <==> FieldsFine(lib, fields) && Get(fields, "command_id").Some?
                                && Get(fields, "action").Some? && Get(fields, "doors").Some?)
            && (parsed.Ok? ==> Understood(lib, fields, parsed.value))
  {
    ReadFieldsIff(lib, fields);
    if ReadFields(lib, fields).Ok? {
      HeldIsUnderstood(lib, fields, ReadFields(lib, fields).value);
    }
    hide ReadFields, Get, FieldsFine, Holds, Understood, FieldFine;
  }

  lemma {:induction false} ErrorStays(lib: Library, fields: Fields, i: nat)
    requires i <= |fields| && ReadFields(lib, fields[..i]).Err?
    ensures ReadFields(lib, fields) == ReadFields(lib, fields[..i])
  {
    if i == |fields| {
      assert fields[..i] == fields;
    } else {
      var init := fields[..|fields| - 1];
      assert init[..i] == fields[..i];
      ErrorStays(lib, init, i);
    }
  }

  // An unknown action makes a command invalid, whatever else it holds: it is enough that no
  // earlier action leaves the decision to the library.
  lemma UnknownAction(lib: Library, fields: Fields, i: nat, s: string)
    requires i < |fields| && fields[i] == ("action", JString(s)) && s != "lock" && s != "unlock"
    requires forall j :: 0 <= j < i && fields[j].0 == "action" ==> fields[j].1.JString?
    ensures ParseCommand(lib, Tree(JObject(fields))) == Err(InvalidCommand)
  {
    var part := fields[..i + 1];
    AcceptedErrors(lib, part);
    ReadFieldsIff(lib, part);
    assert !FieldFine(lib, part[i].0, part[i].1);
    ErrorStays(lib, fields, i + 1);
  }
}
