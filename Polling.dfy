/**
 * The test suite's polling loop: fetch a command until a 200 response
 * decides the outcome. The clock is abstracted away: the loop consumes a
 * finite sequence of attempt outcomes, one per request it issues before
 * the deadline, and running out of that sequence stands for the timeout.
 * Each sleep of `poll_interval` is counted rather than performed.
 */
module Polling {
  import opened Json
  import JsonValid

  /** What one GET request produced: a transport exception, or a status code and decoded body. */
  datatype Attempt = TransportError | Http(code: int, body: Value)

  /** How polling_state ends. */
  datatype PollResult =
    /** `return data` */
    | Found(record: Value)
    /** `return None` */
    | NotExpected
    /** the AssertionError of validate_response propagates */
    | SchemaFailure
    /** the TimeoutError, with its diagnostic context */
    | Timeout(attempts: nat, lastStatus: Value, lastBody: Value)
    /**
     * the diagnostic request after the deadline raised, or its 200 body
     * was not an object and `.get` raised AttributeError
     */
    | FinalFetchFailed

  predicate IsOk(a: Attempt) {
    a.Http? && a.code == 200
  }

  /** Position of the first 200 response; |outcomes| when there is none. */
  function FirstOk(outcomes: seq<Attempt>): (i: nat)
    ensures i <= |outcomes|
    ensures forall j :: 0 <= j < i ==> !IsOk(outcomes[j])
    ensures i < |outcomes| ==> IsOk(outcomes[i])
  {
    if outcomes == [] then 0
    else if IsOk(outcomes[0]) then 0
    else 1 + FirstOk(outcomes[1..])
  }

  /** How many of the outcomes are transport errors, each followed by a sleep. */
  function TransportErrors(outcomes: seq<Attempt>): (n: nat)
    ensures n <= |outcomes|
  {
    if outcomes == [] then 0
    else TransportErrors(outcomes[..|outcomes| - 1]) + (if outcomes[|outcomes| - 1].TransportError? then 1 else 0)
  }

  /** `status in expected_statuses`: Python equality never makes a non-string equal to a string. */
  predicate Expected(status: Value, expected: seq<string>) {
    status.JStr? && status.s in expected
  }

  /** What a 200 response decides: the schema check first, then the status. */
  function Decide(data: Value, expected: seq<string>): PollResult {
    if JsonValid.ValidateResponse(data) == JsonValid.AssertionFailure then SchemaFailure
    else if Expected(data.fields["status"], expected) then Found(data)
    else NotExpected
  }

  /** The diagnostic fetch after the deadline and the TimeoutError built from it. */
  function TimedOut(attempts: nat, final: Attempt): PollResult {
    match final
    case TransportError => FinalFetchFailed
    case Http(code, body) =>
      if code != 200 then Timeout(attempts, JStr("N/A"), JObj(map[]))
      else if !body.JObj? then FinalFetchFailed
      else Timeout(attempts, GetOr(body.fields, "status", JStr("N/A")), body)
  }

  /** The result of polling: decided by the first 200 response, or the timeout when none comes. */
  function Polled(outcomes: seq<Attempt>, expected: seq<string>, final: Attempt): PollResult {
    var i := FirstOk(outcomes);
    if i < |outcomes| then Decide(outcomes[i].body, expected) else TimedOut(|outcomes|, final)
  }

  /** The number of requests the loop issues: up to and including the first 200 response. */
  function Consumed(outcomes: seq<Attempt>): nat {
    var i := FirstOk(outcomes);
    if i < |outcomes| then i + 1 else |outcomes|
  }

  /**
   * polling_state. `outcomes` are the results of the requests issued before
   * the deadline, in order; `final` is the diagnostic request after it.
   * Returns how it ends, the `attempts` counter and the number of sleeps.
   */
  method PollState(outcomes: seq<Attempt>, expected: seq<string>, final: Attempt)
    returns (result: PollResult, attempts: nat, sleeps: nat)
    ensures result == Polled(outcomes, expected, final)
    ensures attempts == Consumed(outcomes)
    ensures sleeps == TransportErrors(outcomes[..attempts])
  {
    attempts, sleeps := 0, 0;
    while attempts < |outcomes|
      invariant attempts <= |outcomes|
      invariant forall j :: 0 <= j < attempts ==> !IsOk(outcomes[j])
      invariant sleeps == TransportErrors(outcomes[..attempts])
    {
      var response := outcomes[attempts];
      assert outcomes[..attempts + 1][..attempts] == outcomes[..attempts];
      attempts := attempts + 1;
      match response {
        case TransportError =>
          sleeps := sleeps + 1;
        case Http(code, data) =>
          if code == 200 {
            assert FirstOk(outcomes) == attempts - 1;
            if JsonValid.ValidateResponse(data) == JsonValid.AssertionFailure {
              return SchemaFailure, attempts, sleeps;
            }
            var status := data.fields["status"];
            if Expected(status, expected) {
              return Found(data), attempts, sleeps;
            } else {
              return NotExpected, attempts, sleeps;
            }
          }
      }
    }
    result := TimedOut(attempts, final);
  }

  /** A 200 body that fails the schema aborts polling whatever its status. */
  lemma SchemaCheckedFirst(data: Value, expected: seq<string>)
    requires !JsonValid.CommandResponseShape(data)
    ensures Decide(data, expected) == SchemaFailure
  {
  }

  /**
   * Once the schema passes, `status` is present and a string, so the
   * missing-status branch cannot be taken; the status alone then decides.
   */
  lemma StatusDecides(data: Value, expected: seq<string>)
    requires JsonValid.CommandResponseShape(data)
    ensures "status" in data.fields && data.fields["status"].JStr?
    ensures Decide(data, expected) == if data.fields["status"].s in expected then Found(data) else NotExpected
  {
  }

  /** A returned record is the first 200 body, passes the schema and has an expected status. */
  lemma FoundIsFirstOkBody(outcomes: seq<Attempt>, expected: seq<string>, final: Attempt)
    requires Polled(outcomes, expected, final).Found?
    ensures var i := FirstOk(outcomes);
      var r := Polled(outcomes, expected, final).record;
      && i < |outcomes| && outcomes[i] == Http(200, r)
      && JsonValid.CommandResponseShape(r)
      && r.fields["status"].s in expected
  {
  }

  /** Outcomes after the first 200 are never consumed: they cannot change the result. */
  lemma {:induction false} LaterOutcomesIgnored(outcomes: seq<Attempt>, later: seq<Attempt>, expected: seq<string>, final: Attempt)
    requires FirstOk(outcomes) < |outcomes|
    ensures FirstOk(outcomes + later) == FirstOk(outcomes)
    ensures Polled(outcomes + later, expected, final) == Polled(outcomes, expected, final)
    ensures Consumed(outcomes + later) == Consumed(outcomes)
  {
    if !IsOk(outcomes[0]) {
      assert (outcomes + later)[1..] == outcomes[1..] + later;
      LaterOutcomesIgnored(outcomes[1..], later, expected, final);
    }
  }

  /**
   * The timeout result reports the diagnostic fetch: the status of an object
   * 200 body when it has one and "N/A" otherwise, "N/A" and {} for any other
   * code; a transport error or a non-object 200 body ends in an exception.
   */
  lemma TimedOutOutcome(attempts: nat, final: Attempt)
    ensures final.TransportError? ==> TimedOut(attempts, final) == FinalFetchFailed
    ensures final.Http? && final.code != 200 ==> TimedOut(attempts, final) == Timeout(attempts, JStr("N/A"), JObj(map[]))
    ensures final.Http? && final.code == 200 && !final.body.JObj? ==> TimedOut(attempts, final) == FinalFetchFailed
    ensures final.Http? && final.code == 200 && final.body.JObj? ==>
      var r := TimedOut(attempts, final);
      && r.Timeout? && r.attempts == attempts && r.lastBody == final.body
      && ("status" in final.body.fields ==> r.lastStatus == final.body.fields["status"])
      && ("status" !in final.body.fields ==> r.lastStatus == JStr("N/A"))
  {
  }

  /** With no 200 response before the deadline, every outcome is consumed and the result is a timeout. */
  lemma NoOkMeansTimeout(outcomes: seq<Attempt>, expected: seq<string>, final: Attempt)
    requires forall j :: 0 <= j < |outcomes| ==> !IsOk(outcomes[j])
    ensures Consumed(outcomes) == |outcomes|
    ensures Polled(outcomes, expected, final) == TimedOut(|outcomes|, final)
    ensures final.Http? && final.code != 200 ==>
      Polled(outcomes, expected, final) == Timeout(|outcomes|, JStr("N/A"), JObj(map[]))
  {
  }

  /** The sleeps are one per transport error: never more than the requests issued. */
  lemma {:induction false} SleepsPerTransportError(outcomes: seq<Attempt>)
    ensures TransportErrors(outcomes) == |set j | 0 <= j < |outcomes| && outcomes[j].TransportError?|
  {
    if outcomes != [] {
      var n := |outcomes| - 1;
      var init := outcomes[..n];
      SleepsPerTransportError(init);
      var before := set j | 0 <= j < n && init[j].TransportError?;
      var after := set j | 0 <= j < |outcomes| && outcomes[j].TransportError?;
      assert before == set j | 0 <= j < n && outcomes[j].TransportError?;
      if outcomes[n].TransportError? {
        assert after == before + {n};
      } else {
        assert after == before;
      }
    }
  }
}
