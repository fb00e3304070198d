# Device command service: a Dafny model

This project models a small device-command dispatch service and the client
logic of its test suite:

- **The command store and its handlers** (`main.py`). A module-level dict
  `commands` maps a command id to a record `{id, device_id, command, status,
  error}`. `create_command` validates the payload and inserts a record with
  status `NEW`. `get_command` looks a record up. `execute_command` runs in the
  background and gives the record a terminal status. In the model, the dict is
  the `commands` field of class `Server.CommandStore`. Its three methods
  change or read that field step by step, as the handlers do. Each method is
  proved equal to a pure function of the store (`Server.Create`, `Server.Get`,
  `Server.Execute`). The lemmas state the handlers' properties about those
  functions.
- **The response-shape validators** (`json_valid.py`). A schema is a JSON
  value built the way the Python dict literals build it: a repeated key keeps
  its later entry (`Json.DictOf`). `JsonValid.Validates` gives the pass/fail
  meaning of the JSON Schema Draft 2020-12 keywords those literals use
  (`type`, `enum`, `required`, `properties`, `additionalProperties`, boolean
  schemas). Every other keyword is ignored; the two schemas use none except
  the unknown `additionalOperations`. Two lemmas
  prove what each schema effectively accepts (`CommandResponseShape`,
  `ErrorResponseShape`).
- **The polling loop** (`polling_state` in `test_api.py`). It is a `while`
  loop (`Polling.PollState`) over a finite sequence of attempt outcomes. Each
  outcome is a transport error or an HTTP status code with a body. Running out
  of the sequence stands for the deadline passing. A separate outcome stands
  for the diagnostic fetch made after the deadline.
- **Conformance**: lemmas tying the three together. They cover what the test
  suite's schemas say about the server's responses, and what polling observes
  before and after the background execution has run.

Files: `Json.dfy`, `JsonValid.dfy`, `Server.dfy`, `Polling.dfy`,
`Conformance.dfy`.

## Behaviour the code has that it may not intend

The model follows the code in each of these cases, and proves the behaviour
the code actually has. The hint that it may not be intended comes from the
code itself:

- Ids are not unique, although the variable is named `uniq_id`
  (main.py:59-60). `uniq_id = 0; str(uniq_id + 1)` gives `"1"` to every
  accepted command, and each new record overwrites the previous one
  (`Server.CreateStoresUnderOne`, `Server.IdsAreNotUnique`). Every store that
  atomic create and execute steps reach holds at most the key `"1"`
  (`Server.RunPreservesInvariant`).
- Status is not monotone. `execute_command` does not look at the current
  status, so a second execute can replace a terminal status
  (`Server.ExecuteOverwritesTerminal`). A later create also resets the record
  under `"1"` to `NEW`. `IN_PROGRESS` is never assigned.
- The status enumeration is not enforced, although json_valid.py:7 spells it
  out. The `properties` literal names `status` twice, and the later entry
  (json_valid.py:9), a plain string schema, wins
  (`JsonValid.CommandPropertiesEffective`, `JsonValid.AnyStatusAccepted`).
- The error schema allows extra keys. `additionalOperations`
  (json_valid.py:23) reads like a misspelt `additionalProperties`, but is not
  a keyword, so it is ignored (`JsonValid.ErrorSchemaMeaning`).
- A freshly created record fails the command schema, although the positive
  test validates every 200 body it polls and expects it to pass
  (test_api.py:40). The record's `error` is `None` (main.py:67), and the
  schema demands a string (`JsonValid.NullErrorRejected`,
  `Conformance.FetchedRecordSchema`). So a poll that sees the record before
  the background execution has run aborts with the assertion failure
  (`Conformance.PollingBeforeExecutionFails`).
- The three writes of `execute_command` are not atomic. A create between the
  status write and the error writes leaves record "1" as NEW with the error
  "Device unreachable" (`Server.CreateBetweenWrites`), and that body passes
  `validate_response` (`Conformance.RaceRecordPassesSchema`). Two overlapping
  executions can leave SUCCESS with "Device unreachable"
  (`Server.OverlappingExecutes`).
- A valid 200 response whose status is not expected ends polling at once with
  `None` (`Polling.StatusDecides`).

## Model

| member | source | states |
|---|---|---|
| Json.Truthy | main.py:44 | Python truthiness of a decoded value: false exactly for null, false, 0, "", [] and {}; used by `Server.Given` and `Server.Get` |
| Json.DictOf | json_valid.py:3-15 | the dict a literal evaluates to has exactly the keys its entries mention |
| Json.DictOfLastEntry | json_valid.py:7-9 | a key's value in the dict is the value of its last entry in the literal, so a later duplicate overrides an earlier one |
| JsonValid.StringSchemaMeaning | json_valid.py:6 | `{"type": "string"}` accepts exactly the string values |
| JsonValid.CommandPropertiesEffective | json_valid.py:5-12 | the `properties` dict maps each of id, status, command, device_id, error to the plain string schema; the enum-bearing `status` entry is discarded |
| JsonValid.CommandSchemaKeywords | json_valid.py:3-15 | SCHEMA_COMMAND_RESPONSE evaluates to an object with the keywords type, properties, required and additionalProperties |
| JsonValid.CommandSchemaMeaning | json_valid.py:3-15 | the command schema accepts a value iff it is an object containing `id` and `status`, with no key outside the five declared ones, and with a string under every key |
| JsonValid.ErrorSchemaKeywords | json_valid.py:17-24 | SCHEMA_ERROR_RESPONSE evaluates to an object whose fourth key is the unknown `additionalOperations` |
| JsonValid.ErrorSchemaMeaning | json_valid.py:17-24 | the error schema accepts a value iff it is an object with a string `error`; any other keys are allowed |
| JsonValid.AnyStatusAccepted | json_valid.py:7-9 | an object with only string `id` and `status` passes the command schema, whatever the status string is |
| JsonValid.EnumEntryRejectsUnknownStatus | json_valid.py:7 | the discarded first `status` entry would have rejected any status outside NEW, IN_PROGRESS, SUCCESS, FAILED |
| JsonValid.NullErrorRejected | json_valid.py:11 | an object whose `error` is null fails the command schema |
| JsonValid.ValidateResponse | json_valid.py:27-32 | validate_response returns normally iff CommandResponseShape holds, and otherwise fails with an assertion error |
| JsonValid.ValidateError | json_valid.py:35-40 | validate_error returns normally iff ErrorResponseShape holds, and otherwise fails with an assertion error |
| Server.Given | main.py:44-51 | `key in data and data[key]`; `Server.CreateOutcome` shows create accepts exactly when it holds of both fields |
| Server.Create | main.py:35-78 | the create handler as a function of the store, giving the new store and the response; characterised by `CreateChecksDeviceIdFirst`, `CreateChecksCommand`, `CreateOutcome` and `CreateStoresUnderOne` |
| Server.Get | main.py:82-92 | the get handler as a function of the store; characterised by `GetOutcome` |
| Server.Execute | main.py:17-31 | one execution as a single atomic step on the store; characterised by `ExecuteAbsent`, `ExecutePresent` and `ExecuteIsItsWrites` |
| Server.ApplyWrite | main.py:27-31 | one of the three in-place writes, looking the record up afresh; an absent id changes nothing |
| Server.Writes | main.py:26-31 | the writes one execution makes: its status, the cleared error, and the failure message only on FAILED |
| Server.ExecuteIsItsWrites | main.py:17-31 | the writes of one execution, run back to back, give exactly `Execute` |
| Server.CreateBetweenWrites | main.py:27-31 | a create between the status write and the error writes leaves record "1" as NEW with error "Device unreachable", which breaks the invariant |
| Server.OverlappingExecutes | main.py:27-31 | two overlapping executions can leave record "1" as SUCCESS with error "Device unreachable", which breaks the invariant |
| Server.ConsistentErrorIffFailed | main.py:26-31 | for every status/error pair the service writes, the error is a non-empty string iff the status is FAILED |
| Server.CreateChecksDeviceIdFirst | main.py:44-45 | a missing or falsy device_id gives 400 "device_id is empty or missing" and leaves the store unchanged, whatever `command` holds |
| Server.CreateChecksCommand | main.py:50-51 | with a usable device_id, a missing or falsy command gives 400 "command is empty or missing" and leaves the store unchanged |
| Server.CreateOutcome | main.py:44-78 | create answers 201 or 400; 201 iff both fields are present and truthy; a 400 leaves the store unchanged |
| Server.CreateStoresUnderOne | main.py:59-78 | an accepted create answers 201 `{id: "1", status: "NEW"}` and stores `{id "1", device_id, command, NEW, null}` under "1", replacing any earlier record; no other key changes |
| Server.IdsAreNotUnique | main.py:59-69 | two accepted creates return the same id, and fetching "1" afterwards gives the second record |
| Server.GetOutcome | main.py:88-92 | get answers 404 `{"error": "Command not found"}` iff the id is absent, and otherwise 200 with exactly the stored record |
| Server.ExecuteAbsent | main.py:23 | executing an absent id leaves the store unchanged |
| Server.ExecutePresent | main.py:26-31 | executing a present id sets SUCCESS with error "" (choice 0) or FAILED with "Device unreachable" (choice 1); id, device_id, command and all other keys are unchanged |
| Server.ExecuteTerminal | main.py:26-31 | after an execute the status is SUCCESS or FAILED, and the error is non-empty iff it is FAILED |
| Server.ExecuteOverwritesTerminal | main.py:23-31 | a FAILED record executed again with choice 0 becomes SUCCESS: terminal statuses are not sticky |
| Server.CreatePreservesInvariant | main.py:59-69 | create keeps every record under its own id, that id "1", and its status/error pair consistent |
| Server.ExecutePreservesInvariant | main.py:23-31 | execute keeps the same store invariant |
| Server.RunPreservesInvariant | main.py:9-92 | every store reached by any sequence of atomic create, get and execute steps satisfies the invariant |
| Server.CommandStore.constructor | main.py:9 | the store starts as the empty dict |
| Server.CommandStore.CreateCommand | main.py:35-78 | the in-place create leaves the dict that Create gives, returns its response, and keeps the invariant |
| Server.CommandStore.GetCommand | main.py:82-92 | the lookup returns 404 `{"error": "Command not found"}` for an absent id and otherwise 200 with exactly the stored record, the response that Get gives, without changing the dict |
| Server.CommandStore.ExecuteCommand | main.py:17-31 | the three in-place writes leave the dict that Execute gives, and keep the invariant |
| Polling.FirstOk | test_api.py:32-37 | the position found is that of the first 200 outcome, and none before it is a 200 |
| Polling.TransportErrors | test_api.py:57-59 | the number of sleeps never exceeds the number of requests |
| Polling.Decide | test_api.py:37-53 | what a 200 response decides: the schema check first, then the status; characterised by `SchemaCheckedFirst` and `StatusDecides` |
| Polling.TimedOut | test_api.py:61-68 | the result after the deadline, built from the diagnostic fetch; characterised by `TimedOutOutcome` |
| Polling.TimedOutOutcome | test_api.py:61-68 | a transport error or a non-object 200 body ends in an exception; another code reports "N/A" and {}; an object 200 body reports its `status` when present and "N/A" otherwise, together with the body and the attempt count |
| Polling.PollState | test_api.py:20-68 | the loop's result is decided by the first 200 outcome, or is the timeout result built from the final fetch when there is none; `attempts` is the number of outcomes consumed, one per request up to and including that 200; one sleep per transport error consumed |
| Polling.SchemaCheckedFirst | test_api.py:37-40 | a 200 body that fails the command schema aborts with the assertion failure whatever its status |
| Polling.StatusDecides | test_api.py:40-53 | after the schema passes, `status` is present and a string, so the missing-status branch is unreachable; the body is returned iff its status is expected, and otherwise the result is None |
| Polling.FoundIsFirstOkBody | test_api.py:37-51 | a returned record is exactly the first 200 body, passes the schema and has an expected status |
| Polling.LaterOutcomesIgnored | test_api.py:48-53 | outcomes after the first 200 are never consumed and cannot change the result |
| Polling.NoOkMeansTimeout | test_api.py:32-33 | with no 200 before the deadline every outcome is consumed and the result is the timeout; a non-200 final fetch reports status "N/A" and body {} |
| Polling.SleepsPerTransportError | test_api.py:54-59 | the sleeps are exactly one per transport error; non-200 outcomes retry without sleeping |
| Conformance.CreateResponsesPassSchemas | main.py:44-78 | the 201 body passes validate_response with status NEW, and both 400 bodies pass validate_error |
| Conformance.NotFoundPassesErrorSchema | main.py:89-90 | the 404 body passes validate_error |
| Conformance.FetchedRecordSchema | main.py:62-68 | a fetched record with string device_id and command passes validate_response iff its status is not NEW |
| Conformance.RaceRecordPassesSchema | main.py:27-69 | the NEW record with error "Device unreachable" that a create between an execution's writes leaves is fetched with 200 and passes validate_response |
| Conformance.CreateThenGet | main.py:59-92 | fetching the id an accepted create returns gives 200 with the new record, whose status equals the status in the 201 body |
| Conformance.PollingBeforeExecutionFails | test_api.py:37-40 | polling that reaches the freshly created record before its execution aborts with the schema's assertion failure |
| Conformance.PollingAfterExecutionFinds | test_api.py:97-115 | polling for SUCCESS/FAILED after the execution returns the record; its error is "" on SUCCESS and "Device unreachable" on FAILED |

## Left out

- HTTP plumbing (Flask routing, `request.get_json`, `jsonify`, `app.run`).
  Responses are `(code, body)` values. The payload is a JSON object. A body
  that is not JSON, or a payload that is a JSON array or scalar, is not
  modelled.
- Threads and `time.sleep(2)` in `execute_command`. Flask serves requests
  concurrently, and every accepted create starts another execution of "1".
  `Server.Run` treats each execution as one atomic step, so a create or a
  second execution of "1" landing between its three writes (main.py:27, :28,
  :31) is not among its steps. Such interleavings are reachable in the
  program. They leave record "1" as NEW with "Device unreachable" or as
  SUCCESS with "Device unreachable" (`Server.CreateBetweenWrites`,
  `Server.OverlappingExecutes`), so `Server.StoreInvariant` holds only of
  the atomic runs. A reader between the writes could also see the new
  status before the failure message.
- `random.choice([0, 1])`. It is the `Choice` parameter.
- Aliasing. The Python record dict is one object, shared by the store and by
  `jsonify`. Records are values here.
- The clock, `time.sleep(poll_interval)` and the `requests` calls in
  `polling_state`. The outcome sequence replaces them, and sleeps are
  counted. The `timeout` and `poll_interval` values do not appear.
- A 200 body that `response.json()` cannot decode. `requests` raises a
  RequestException for this, which the loop would catch; this is not modelled.
- Logging, and the text of the AssertionError and TimeoutError messages. The
  timeout result keeps the attempt count, the last status and the last body.
- `JsonValid.Validates`: only the keywords the two schemas use. `type` is
  checked in its string form only. Numbers are integers only. An invalid
  schema, which the library refuses before validating, is not modelled;
  `Validates` gives such a schema no meaningful verdict.
- conftest.py fixtures and the pytest test functions. Their assertions appear
  only as lemmas in `Conformance`.
