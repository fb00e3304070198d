/**
 * The command service: a process-wide dict from command id to command
 * record, the two request handlers that read and insert records, and the
 * background step that gives a command its outcome.
 *
 * `Create`, `Get` and `Execute` are the handlers as functions of the store;
 * the class `CommandStore` holds the dict as a field and its methods change
 * it step by step as the handlers do, each proved to agree with its function.
 */
module Server {
  import opened Json

  const NEW: string := "NEW"
  /** COMMAND_STATUS: index 0 is success, index 1 failure. */
  const COMMAND_STATUS: seq<string> := ["SUCCESS", "FAILED"]
  const DEVICE_UNREACHABLE: string := "Device unreachable"
  const DEVICE_ID_MISSING: string := "device_id is empty or missing"
  const COMMAND_MISSING: string := "command is empty or missing"
  const NOT_FOUND: string := "Command not found"

  /** What `random.choice([0, 1])` can return: an index into COMMAND_STATUS. */
  type Choice = i: nat | i < 2

  /** A stored command record. `device_id` and `command` keep whatever JSON value the payload held. */
  datatype Command = Command(id: string, deviceId: Value, command: Value, status: string, error: Value) {
    /** The record as `jsonify` sends it. */
    function ToJson(): Value {
      JObj(map["id" := JStr(id), "device_id" := deviceId, "command" := command,
               "status" := JStr(status), "error" := error])
    }
  }

  /** An HTTP response: status code and JSON body. */
  datatype Response = Response(code: int, body: Value)

  function ErrorBody(message: string): Value {
    JObj(map["error" := JStr(message)])
  }

  type Store = map<string, Command>

  /** `key in data and data[key]`: the key is present and its value is truthy. */
  predicate Given(payload: map<string, Value>, key: string) {
    key in payload && Truthy(payload[key])
  }

  /** `str(n)` for a non-negative integer. */
  function DecimalString(n: nat): string {
    if n < 10 then ["0123456789"[n]] else DecimalString(n / 10) + ["0123456789"[n % 10]]
  }

  /** The new store and the response of one call of the create handler. */
  datatype Created = Created(store: Store, response: Response)

  /** create_command on a JSON object payload. */
  function Create(store: Store, payload: map<string, Value>): Created {
    if !Given(payload, "device_id") then
      Created(store, Response(400, ErrorBody(DEVICE_ID_MISSING)))
    else if !Given(payload, "command") then
      Created(store, Response(400, ErrorBody(COMMAND_MISSING)))
    else
      var uniqId := 0;
      var commandId := DecimalString(uniqId + 1);
      var command := Command(commandId, payload["device_id"], payload["command"], NEW, JNull);
      Created(store[commandId := command], Response(201, JObj(map["id" := JStr(commandId), "status" := JStr(NEW)])))
  }

  /** get_command: `commands.get(id)`, then 404 when that is falsy. */
  function Get(store: Store, commandId: string): Response {
    if commandId !in store || !Truthy(store[commandId].ToJson()) then
      Response(404, ErrorBody(NOT_FOUND))
    else
      Response(200, store[commandId].ToJson())
  }

  /** execute_command after its delay, with the random index passed in. */
  function Execute(store: Store, commandId: string, state: Choice): Store {
    if commandId in store then
      var error := if COMMAND_STATUS[state] == COMMAND_STATUS[1] then DEVICE_UNREACHABLE else "";
      store[commandId := store[commandId].(status := COMMAND_STATUS[state], error := JStr(error))]
    else
      store
  }

  /**
   * The three writes execute_command makes (main.py:27, :28 and :31). Each
   * looks the record up afresh, so a create or another execution running
   * between them acts on whatever record is under the id at that moment.
   */
  datatype Write = SetStatus(state: Choice) | ClearError | SetUnreachable

  /** One write in place; an absent id raises KeyError in the thread, which changes nothing. */
  function ApplyWrite(store: Store, commandId: string, w: Write): Store {
    if commandId !in store then store
    else
      var c := store[commandId];
      store[commandId := match w
        case SetStatus(state) => c.(status := COMMAND_STATUS[state])
        case ClearError => c.(error := JStr(""))
        case SetUnreachable => c.(error := JStr(DEVICE_UNREACHABLE))]
  }

  function ApplyWrites(store: Store, commandId: string, ws: seq<Write>): Store
    decreases |ws|
  {
    if ws == [] then store else ApplyWrites(ApplyWrite(store, commandId, ws[0]), commandId, ws[1..])
  }

  /** The writes one execution makes, in order, for the random index it drew. */
  function Writes(state: Choice): seq<Write> {
    [SetStatus(state), ClearError] + if COMMAND_STATUS[state] == COMMAND_STATUS[1] then [SetUnreachable] else []
  }

  /** The status/error pairs the service ever writes together. */
  predicate Consistent(c: Command) {
    || (c.status == NEW && c.error == JNull)
    || (c.status == COMMAND_STATUS[0] && c.error == JStr(""))
    || (c.status == COMMAND_STATUS[1] && c.error == JStr(DEVICE_UNREACHABLE))
  }

  /** The record carries a non-empty error string. */
  predicate HasError(c: Command) {
    c.error.JStr? && c.error.s != ""
  }

  /**
   * What holds of every store the atomic create and execute steps reach:
   * each record sits under its own id, that id is "1", and its status and
   * error agree. Interleaved writes can break the last part
   * (`CreateBetweenWrites`, `OverlappingExecutes`).
   */
  predicate StoreInvariant(store: Store) {
    forall k :: k in store ==> k == "1" && store[k].id == k && Consistent(store[k])
  }

  lemma ConsistentErrorIffFailed(c: Command)
    requires Consistent(c)
    ensures HasError(c) <==> c.status == "FAILED"
  {
  }

  /** A missing or falsy device_id is reported first, whatever the command field holds. */
  lemma CreateChecksDeviceIdFirst(store: Store, payload: map<string, Value>)
    requires !Given(payload, "device_id")
    ensures Create(store, payload) == Created(store, Response(400, ErrorBody("device_id is empty or missing")))
  {
  }

  /** With a usable device_id, a missing or falsy command is reported. */
  lemma CreateChecksCommand(store: Store, payload: map<string, Value>)
    requires Given(payload, "device_id") && !Given(payload, "command")
    ensures Create(store, payload) == Created(store, Response(400, ErrorBody("command is empty or missing")))
  {
  }

  /** A create that is refused leaves the store as it was; one that is accepted answers 201. */
  lemma CreateOutcome(store: Store, payload: map<string, Value>)
    ensures Create(store, payload).response.code in {201, 400}
    ensures Create(store, payload).response.code == 201 <==> Given(payload, "device_id") && Given(payload, "command")
    ensures Create(store, payload).response.code == 400 ==> Create(store, payload).store == store
  {
  }

  /**
   * An accepted create always answers id "1" with status NEW, and stores the
   * new record under "1", replacing any earlier record there; no other key changes.
   */
  lemma CreateStoresUnderOne(store: Store, payload: map<string, Value>)
    requires Given(payload, "device_id") && Given(payload, "command")
    ensures var r := Create(store, payload);
      && r.response == Response(201, JObj(map["id" := JStr("1"), "status" := JStr("NEW")]))
      && r.store.Keys == store.Keys + {"1"}
      && r.store["1"] == Command("1", payload["device_id"], payload["command"], "NEW", JNull)
      && forall k :: k in store && k != "1" ==> r.store[k] == store[k]
  {
    assert DecimalString(1) == "1";
  }

  /** Two accepted creates get the same id; the second record replaces the first. */
  lemma IdsAreNotUnique(store: Store, p1: map<string, Value>, p2: map<string, Value>)
    requires Given(p1, "device_id") && Given(p1, "command")
    requires Given(p2, "device_id") && Given(p2, "command")
    ensures var first := Create(store, p1);
      var second := Create(first.store, p2);
      && first.response.body.fields["id"] == second.response.body.fields["id"]
      && Get(second.store, "1").body == Command("1", p2["device_id"], p2["command"], NEW, JNull).ToJson()
  {
    CreateStoresUnderOne(store, p1);
    CreateStoresUnderOne(Create(store, p1).store, p2);
  }

  /** A stored record is never falsy, so Get answers 404 exactly for an absent id. */
  lemma GetOutcome(store: Store, commandId: string)
    ensures commandId !in store ==> Get(store, commandId) == Response(404, ErrorBody("Command not found"))
    ensures commandId in store ==> Get(store, commandId) == Response(200, store[commandId].ToJson())
  {
    if commandId in store {
      assert "id" in store[commandId].ToJson().fields;
    }
  }

  /** Executing an unknown id changes nothing. */
  lemma ExecuteAbsent(store: Store, commandId: string, state: Choice)
    requires commandId !in store
    ensures Execute(store, commandId, state) == store
  {
  }

  /**
   * Executing a known id sets its status to COMMAND_STATUS[state] and its
   * error to "" on success or "Device unreachable" on failure; id, device_id,
   * command and every other key are untouched.
   */
  lemma ExecutePresent(store: Store, commandId: string, state: Choice)
    requires commandId in store
    ensures var s := Execute(store, commandId, state);
      && s.Keys == store.Keys
      && s[commandId].id == store[commandId].id
      && s[commandId].deviceId == store[commandId].deviceId
      && s[commandId].command == store[commandId].command
      && (state == 0 ==> s[commandId].status == "SUCCESS" && s[commandId].error == JStr(""))
      && (state == 1 ==> s[commandId].status == "FAILED" && s[commandId].error == JStr("Device unreachable"))
      && forall k :: k in store && k != commandId ==> s[k] == store[k]
  {
  }

  /** After an execute, the status is terminal and the error is set exactly on failure. */
  lemma ExecuteTerminal(store: Store, commandId: string, state: Choice)
    requires commandId in store
    ensures var c := Execute(store, commandId, state)[commandId];
      && c.status in {"SUCCESS", "FAILED"}
      && (HasError(c) <==> c.status == "FAILED")
  {
  }

  /** A second execute may replace a terminal status: statuses are not monotone. */
  lemma ExecuteOverwritesTerminal(store: Store)
    requires "1" in store
    ensures Execute(store, "1", 1)["1"].status == "FAILED"
    ensures Execute(Execute(store, "1", 1), "1", 0)["1"].status == "SUCCESS"
  {
  }

  lemma CreatePreservesInvariant(store: Store, payload: map<string, Value>)
    requires StoreInvariant(store)
    ensures StoreInvariant(Create(store, payload).store)
  {
    if Given(payload, "device_id") && Given(payload, "command") {
      CreateStoresUnderOne(store, payload);
    }
  }

  lemma ExecutePreservesInvariant(store: Store, commandId: string, state: Choice)
    requires StoreInvariant(store)
    ensures StoreInvariant(Execute(store, commandId, state))
  {
  }

  /** Run back to back, the writes of one execution give exactly the atomic `Execute`. */
  lemma ExecuteIsItsWrites(store: Store, commandId: string, state: Choice)
    ensures ApplyWrites(store, commandId, Writes(state)) == Execute(store, commandId, state)
  {
    var ws := Writes(state);
    var s1 := ApplyWrite(store, commandId, SetStatus(state));
    var s2 := ApplyWrite(s1, commandId, ClearError);
    assert ws[0] == SetStatus(state) && ws[1..][0] == ClearError;
    assert ApplyWrites(store, commandId, ws) == ApplyWrites(s2, commandId, ws[1..][1..]);
    if state == 1 {
      var s3 := ApplyWrite(s2, commandId, SetUnreachable);
      assert ws[1..][1..] == [SetUnreachable];
      assert ApplyWrites(s2, commandId, ws[1..][1..]) == s3;
    } else {
      assert COMMAND_STATUS[0] != COMMAND_STATUS[1];
      assert ws[1..][1..] == [];
    }
  }

  /**
   * A create that lands between the status write and the error writes of
   * an execution: the fresh record keeps status NEW but receives the
   * failure message, a pair the invariant excludes.
   */
  lemma CreateBetweenWrites(store: Store, payload: map<string, Value>)
    requires "1" in store
    requires Given(payload, "device_id") && Given(payload, "command")
    ensures var s := ApplyWrites(Create(ApplyWrite(store, "1", SetStatus(1)), payload).store, "1", [ClearError, SetUnreachable]);
      && s["1"] == Command("1", payload["device_id"], payload["command"], "NEW", JStr("Device unreachable"))
      && !StoreInvariant(s)
  {
    CreateStoresUnderOne(ApplyWrite(store, "1", SetStatus(1)), payload);
    assert [ClearError, SetUnreachable][1..] == [SetUnreachable];
  }

  /**
   * Two executions of "1" that overlap: the failing one writes its status
   * and clears the error, the succeeding one then makes both its writes,
   * and the failing one's last write lands on the SUCCESS record.
   */
  lemma OverlappingExecutes(store: Store)
    requires "1" in store
    ensures var s := ApplyWrites(store, "1", [SetStatus(1), ClearError, SetStatus(0), ClearError, SetUnreachable]);
      && s["1"].status == "SUCCESS" && s["1"].error == JStr("Device unreachable")
      && !StoreInvariant(s)
  {
    var ws := [SetStatus(1), ClearError, SetStatus(0), ClearError, SetUnreachable];
    assert ws[1..] == [ClearError, SetStatus(0), ClearError, SetUnreachable];
    assert ws[1..][1..] == [SetStatus(0), ClearError, SetUnreachable];
    assert ws[1..][1..][1..] == [ClearError, SetUnreachable];
    assert ws[1..][1..][1..][1..] == [SetUnreachable];
  }

  /** The requests a client makes and the background executions, each an atomic step. */
  datatype Event =
    | PostCommand(payload: map<string, Value>)
    | GetCommandById(commandId: string)
    | ExecuteCommandById(commandId: string, state: Choice)

  /** The store after the events, in order. */
  function Run(store: Store, events: seq<Event>): Store
    decreases |events|
  {
    if events == [] then store
    else
      var store' := match events[0]
        case PostCommand(payload) => Create(store, payload).store
        case GetCommandById(_) => store
        case ExecuteCommandById(commandId, state) => Execute(store, commandId, state);
      Run(store', events[1..])
  }

  /** Every store reached by any sequence of atomic create, get and execute steps satisfies the invariant. */
  lemma {:induction false} RunPreservesInvariant(store: Store, events: seq<Event>)
    requires StoreInvariant(store)
    ensures StoreInvariant(Run(store, events))
    decreases |events|
  {
    if events != [] {
      match events[0]
      case PostCommand(payload) =>
        CreatePreservesInvariant(store, payload);
        RunPreservesInvariant(Create(store, payload).store, events[1..]);
      case GetCommandById(_) =>
        RunPreservesInvariant(store, events[1..]);
      case ExecuteCommandById(commandId, state) =>
        ExecutePreservesInvariant(store, commandId, state);
        RunPreservesInvariant(Execute(store, commandId, state), events[1..]);
    }
  }

  /** The module-level `commands` dict and the handlers that change it in place. */
  class CommandStore {
    var commands: Store

    ghost predicate Valid()
      reads this
    {
      StoreInvariant(commands)
    }

    constructor ()
      ensures commands == map[] && Valid()
    {
      commands := map[];
    }

    method CreateCommand(payload: map<string, Value>) returns (response: Response)
      modifies this
      ensures Created(commands, response) == Create(old(commands), payload)
      ensures old(Valid()) ==> Valid()
    {
      ghost var before := commands;
      if !("device_id" in payload && Truthy(payload["device_id"])) {
        return Response(400, ErrorBody(DEVICE_ID_MISSING));
      }
      if !("command" in payload && Truthy(payload["command"])) {
        return Response(400, ErrorBody(COMMAND_MISSING));
      }
      var uniqId := 0;
      var commandId := DecimalString(uniqId + 1);
      var command := Command(commandId, payload["device_id"], payload["command"], NEW, JNull);
      commands := commands[commandId := command];
      response := Response(201, JObj(map["id" := JStr(commandId), "status" := JStr(NEW)]));
      if StoreInvariant(before) {
        CreatePreservesInvariant(before, payload);
      }
    }

    method GetCommand(commandId: string) returns (response: Response)
      ensures response == Get(commands, commandId)
      ensures commandId !in commands ==> response == Response(404, ErrorBody("Command not found"))
      ensures commandId in commands ==> response == Response(200, commands[commandId].ToJson())
    {
      GetOutcome(commands, commandId);
      if commandId !in commands || !Truthy(commands[commandId].ToJson()) {
        return Response(404, ErrorBody(NOT_FOUND));
      }
      response := Response(200, commands[commandId].ToJson());
    }

    method ExecuteCommand(commandId: string, state: Choice)
      modifies this
      ensures commands == Execute(old(commands), commandId, state)
      ensures old(Valid()) ==> Valid()
    {
      ghost var before := commands;
      if commandId in commands {
        commands := commands[commandId := commands[commandId].(status := COMMAND_STATUS[state])];
        commands := commands[commandId := commands[commandId].(error := JStr(""))];
        if COMMAND_STATUS[state] == COMMAND_STATUS[1] {
          commands := commands[commandId := commands[commandId].(error := JStr(DEVICE_UNREACHABLE))];
        }
      }
      if StoreInvariant(before) {
        ExecutePreservesInvariant(before, commandId, state);
      }
    }
  }
}
