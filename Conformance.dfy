/**
 * How the service's responses fare against the test suite's schemas and
 * its polling loop: what a test that creates a command and then polls for
 * it can observe, depending on whether the background execution has run
 * before the first fetch.
 */
module Conformance {
  import opened Json
  import JsonValid
  import Server
  import Polling

  /** The 201 body passes the command schema and both 400 bodies pass the error schema. */
  lemma CreateResponsesPassSchemas(store: Server.Store, payload: map<string, Value>)
    ensures var r := Server.Create(store, payload).response;
      && (r.code == 201 ==> JsonValid.ValidateResponse(r.body) == JsonValid.Pass && r.body.fields["status"] == JStr("NEW"))
      && (r.code != 201 ==> JsonValid.ValidateError(r.body) == JsonValid.Pass)
  {
    if Server.Given(payload, "device_id") && Server.Given(payload, "command") {
      Server.CreateStoresUnderOne(store, payload);
    }
  }

  /** The 404 body passes the error schema. */
  lemma NotFoundPassesErrorSchema(store: Server.Store, commandId: string)
    requires commandId !in store
    ensures Server.Get(store, commandId).code == 404
    ensures JsonValid.ValidateError(Server.Get(store, commandId).body) == JsonValid.Pass
  {
  }

  /**
   * A fetched record whose device_id and command are strings passes the
   * command schema exactly when it has been executed: a NEW record carries
   * a null error, which the schema refuses.
   */
  lemma FetchedRecordSchema(store: Server.Store, commandId: string)
    requires Server.StoreInvariant(store) && commandId in store
    requires store[commandId].deviceId.JStr? && store[commandId].command.JStr?
    ensures var r := Server.Get(store, commandId);
      && r.code == 200
      && (JsonValid.ValidateResponse(r.body) == JsonValid.Pass <==> store[commandId].status != "NEW")
  {
    Server.GetOutcome(store, commandId);
    var c := store[commandId];
    var body := c.ToJson();
    assert body.fields.Keys == JsonValid.COMMAND_FIELDS;
    if c.status == "NEW" {
      assert body.fields["error"] == JNull;
    } else {
      assert c.error.JStr?;
      assert forall k :: k in body.fields ==> body.fields[k].JStr?;
    }
  }

  /**
   * The record a create leaves between the writes of an execution, NEW with
   * the failure message, still passes the command schema: its error is a
   * string, and the schema does not constrain `status`.
   */
  lemma RaceRecordPassesSchema(store: Server.Store, payload: map<string, Value>)
    requires "1" in store
    requires Server.Given(payload, "device_id") && Server.Given(payload, "command")
    requires payload["device_id"].JStr? && payload["command"].JStr?
    ensures var s := Server.ApplyWrites(Server.Create(Server.ApplyWrite(store, "1", Server.SetStatus(1)), payload).store,
                                        "1", [Server.ClearError, Server.SetUnreachable]);
      var r := Server.Get(s, "1");
      && r.code == 200 && r.body.fields["status"] == JStr("NEW")
      && JsonValid.ValidateResponse(r.body) == JsonValid.Pass
  {
    Server.CreateBetweenWrites(store, payload);
    var s := Server.ApplyWrites(Server.Create(Server.ApplyWrite(store, "1", Server.SetStatus(1)), payload).store,
                                "1", [Server.ClearError, Server.SetUnreachable]);
    Server.GetOutcome(s, "1");
    var body := s["1"].ToJson();
    assert body.fields.Keys == JsonValid.COMMAND_FIELDS;
    assert forall k :: k in body.fields ==> body.fields[k].JStr?;
  }

  /** Round trip: right after an accepted create, fetching the returned id gives the new record. */
  lemma CreateThenGet(store: Server.Store, payload: map<string, Value>)
    requires Server.Given(payload, "device_id") && Server.Given(payload, "command")
    ensures var created := Server.Create(store, payload);
      var id := created.response.body.fields["id"].s;
      var r := Server.Get(created.store, id);
      && r.code == 200
      && r.body == Server.Command(id, payload["device_id"], payload["command"], "NEW", JNull).ToJson()
      && r.body.fields["status"] == created.response.body.fields["status"]
  {
    Server.CreateStoresUnderOne(store, payload);
    Server.GetOutcome(Server.Create(store, payload).store, "1");
  }

  /**
   * Polling right after an accepted create, before the execution step:
   * the first 200 response holds the NEW record, and polling aborts with the
   * schema's assertion failure.
   */
  lemma PollingBeforeExecutionFails(store: Server.Store, payload: map<string, Value>,
                                    before: seq<Polling.Attempt>, later: seq<Polling.Attempt>,
                                    expected: seq<string>, final: Polling.Attempt)
    requires Server.Given(payload, "device_id") && Server.Given(payload, "command")
    requires forall j :: 0 <= j < |before| ==> !Polling.IsOk(before[j])
    ensures var s := Server.Create(store, payload).store;
      var fetched := Server.Get(s, "1");
      Polling.Polled(before + [Polling.Http(fetched.code, fetched.body)] + later, expected, final) == Polling.SchemaFailure
  {
    CreateThenGet(store, payload);
    var s := Server.Create(store, payload).store;
    var fetched := Server.Get(s, "1");
    var outcomes := before + [Polling.Http(fetched.code, fetched.body)];
    JsonValid.NullErrorRejected(fetched.body);
    JsonValid.CommandSchemaMeaning(fetched.body);
    assert Polling.FirstOk(outcomes) == |before| by {
      assert forall j :: 0 <= j < |before| ==> outcomes[j] == before[j];
      assert Polling.IsOk(outcomes[|before|]);
    }
    Polling.LaterOutcomesIgnored(outcomes, later, expected, final);
  }

  /**
   * Polling for ["SUCCESS", "FAILED"] once the command has been executed:
   * the first 200 response returns the record, and its error is "" on
   * SUCCESS and "Device unreachable" on FAILED, as the positive test asserts.
   */
  lemma PollingAfterExecutionFinds(store: Server.Store, commandId: string, state: Server.Choice,
                                   before: seq<Polling.Attempt>, later: seq<Polling.Attempt>,
                                   final: Polling.Attempt)
    requires Server.StoreInvariant(store) && commandId in store
    requires store[commandId].deviceId.JStr? && store[commandId].command.JStr?
    requires forall j :: 0 <= j < |before| ==> !Polling.IsOk(before[j])
    ensures var fetched := Server.Get(Server.Execute(store, commandId, state), commandId);
      var result := Polling.Polled(before + [Polling.Http(fetched.code, fetched.body)] + later,
                                   ["SUCCESS", "FAILED"], final);
      && result == Polling.Found(fetched.body)
      && (result.record.fields["status"] == JStr("SUCCESS") ==> result.record.fields["error"] == JStr(""))
      && (result.record.fields["status"] != JStr("SUCCESS") ==>
            result.record.fields["status"] == JStr("FAILED") && result.record.fields["error"] == JStr("Device unreachable"))
  {
    var s := Server.Execute(store, commandId, state);
    Server.ExecutePreservesInvariant(store, commandId, state);
    Server.ExecutePresent(store, commandId, state);
    FetchedRecordSchema(s, commandId);
    var fetched := Server.Get(s, commandId);
    Server.GetOutcome(s, commandId);
    JsonValid.CommandSchemaMeaning(fetched.body);
    Polling.StatusDecides(fetched.body, ["SUCCESS", "FAILED"]);
    var outcomes := before + [Polling.Http(fetched.code, fetched.body)];
    assert Polling.FirstOk(outcomes) == |before| by {
      assert forall j :: 0 <= j < |before| ==> outcomes[j] == before[j];
      assert Polling.IsOk(outcomes[|before|]);
    }
    Polling.LaterOutcomesIgnored(outcomes, later, ["SUCCESS", "FAILED"], final);
  }
}
