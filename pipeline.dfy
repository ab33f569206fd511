/** What one transaction attempt does, end to end, as a function of the client's
    configuration, its transaction data, the session's failure log, the clock and the
    parser's reading of the gateway's response. */
module Pipeline {
  import opened Wrappers
  import opened FieldSet
  import opened TransactionStore
  import opened Validation
  import opened RequestEncoder
  import opened ResponseParser
  import opened Throttle
  import opened Outcome

  /** The result of an attempt, the session's failure log afterwards, and the request
      document sent to the gateway, if one was sent. */
  datatype Step = Step(outcome: Outcome, log: Option<seq<int>>, request: Option<string>)

  /** Whether a response that arrives records a failure: only a declined status does,
      and only while the throttle is enabled. */
  predicate RecordsFailure(limit: int, fields: map<string, string>)
  {
    limit > 0 && Declined(fields)
  }

  /** One attempt: throttle check, validation, encoding and sending, classification of
      the response, and recording of a declined attempt. */
  function Process(customerId: string, mandatory: seq<string>, limit: int, lifetime: int,
                   data: seq<Entry>, log: Option<seq<int>>, now: int,
                   response: seq<Token>): (s: Step)
  {
    if Throttled(limit, lifetime, log, now) then Step(TooManyAttempts, log, None)
    else
      var messages := MissingFieldMessages(mandatory, Keys(data));
      if messages != [] then Step(ValidationFailure(messages), log, None)
      else
        var fields := ResponseFields(response);
        Step(Classify(fields),
             if RecordsFailure(limit, fields) then Some(RecordFailure(log, now)) else log,
             Some(RequestXml(customerId, data)))
  }

  /** The throttle result is returned exactly when the throttle rejects, and then nothing
      is validated or sent and the log is left alone. */
  lemma {:induction false} ThrottleRejection(customerId: string, mandatory: seq<string>, limit: int,
      lifetime: int, data: seq<Entry>, log: Option<seq<int>>, now: int, response: seq<Token>)
    ensures var s := Process(customerId, mandatory, limit, lifetime, data, log, now, response);
      (s.outcome == TooManyAttempts <==> Throttled(limit, lifetime, log, now))
      && (Throttled(limit, lifetime, log, now) ==> s.request.None? && s.log == log)
  {
    if !Throttled(limit, lifetime, log, now) {
      var messages := MissingFieldMessages(mandatory, Keys(data));
      if messages == [] {
        var fields := ResponseFields(response);
        if StatusTag in fields { ClassifyWithStatus(fields); }
      }
    }
  }

  /** A disabled throttle (limit zero) never rejects and never records. */
  lemma ThrottleOff(customerId: string, mandatory: seq<string>, lifetime: int,
      data: seq<Entry>, log: Option<seq<int>>, now: int, response: seq<Token>)
    ensures var s := Process(customerId, mandatory, 0, lifetime, data, log, now, response);
      s.outcome != TooManyAttempts && s.log == log
  {
    ThrottleRejection(customerId, mandatory, 0, lifetime, data, log, now, response);
  }

  /** A session without a log behaves as one with an empty log: the same result and the
      same request, and a failure leaves the same one-entry log. */
  lemma MissingLogIsEmpty(customerId: string, mandatory: seq<string>, limit: int,
      lifetime: int, data: seq<Entry>, now: int, response: seq<Token>)
    ensures var s1 := Process(customerId, mandatory, limit, lifetime, data, None, now, response);
      var s2 := Process(customerId, mandatory, limit, lifetime, data, Some([]), now, response);
      s1.outcome == s2.outcome && s1.request == s2.request
      && (s1.log == None || s1.log == s2.log)
  {
    assert !Throttled(limit, lifetime, Some([]), now);
  }

  /** Invalid data yields the validation messages unchanged, sends nothing and leaves the
      log alone; the `messages` key is set exactly in this case. */
  lemma {:induction false} InvalidData(customerId: string, mandatory: seq<string>, limit: int,
      lifetime: int, data: seq<Entry>, log: Option<seq<int>>, now: int, response: seq<Token>)
    ensures var s := Process(customerId, mandatory, limit, lifetime, data, log, now, response);
      var invalid := !Throttled(limit, lifetime, log, now) && MissingFieldMessages(mandatory, Keys(data)) != [];
      (s.outcome.messages.Some? <==> invalid)
      && (invalid ==> s.outcome == ValidationFailure(MissingFieldMessages(mandatory, Keys(data)))
                      && s.request.None? && s.log == log)
  {
    if !Throttled(limit, lifetime, log, now) && MissingFieldMessages(mandatory, Keys(data)) == [] {
      assert Classify(ResponseFields(response)).messages.None?;
    }
  }

  /** The request goes out exactly when the throttle admits the attempt and every
      mandatory field is present, and it is the encoding of the stored data. */
  lemma {:induction false} RequestSent(customerId: string, mandatory: seq<string>, limit: int,
      lifetime: int, data: seq<Entry>, log: Option<seq<int>>, now: int, response: seq<Token>)
    ensures var s := Process(customerId, mandatory, limit, lifetime, data, log, now, response);
      (s.request.Some? <==> !Throttled(limit, lifetime, log, now)
                            && forall f :: f in mandatory ==> f in Keys(data))
      && (s.request.Some? ==> s.request.value == RequestXml(customerId, data))
  {
    NoMessagesIffComplete(mandatory, Keys(data));
  }

  /** The log changes exactly when the throttle is enabled, the attempt got through, and
      the response carried a status other than approval; it then gains one entry, `now`,
      at the end. */
  lemma {:induction false} LogGrowth(customerId: string, mandatory: seq<string>, limit: int,
      lifetime: int, data: seq<Entry>, log: Option<seq<int>>, now: int, response: seq<Token>)
    ensures var s := Process(customerId, mandatory, limit, lifetime, data, log, now, response);
      var recorded := limit > 0 && s.request.Some? && Declined(ResponseFields(response));
      (s.log != log <==> recorded)
      && (recorded ==> s.log.Some? && s.log.value == (if log.Some? then log.value else []) + [now])
  {
    var s := Process(customerId, mandatory, limit, lifetime, data, log, now, response);
    if s.request.Some? && RecordsFailure(limit, ResponseFields(response)) {
      var r := RecordFailure(log, now);
      assert log.Some? ==> |r| != |log.value|;
      assert log.Some? ==> r == log.value + [now] by {
        if log.Some? { assert r == r[..|log.value|] + [r[|r| - 1]]; }
      }
    }
  }

  /** Success means exactly that the attempt got through and the status is the approval
      value; a success never changes the log. */
  lemma {:induction false} SuccessIffApproved(customerId: string, mandatory: seq<string>, limit: int,
      lifetime: int, data: seq<Entry>, log: Option<seq<int>>, now: int, response: seq<Token>)
    ensures var s := Process(customerId, mandatory, limit, lifetime, data, log, now, response);
      var fields := ResponseFields(response);
      (s.outcome.success <==> s.request.Some? && StatusTag in fields && fields[StatusTag] == Approved)
      && (s.outcome.success ==> s.log == log)
  {
    var s := Process(customerId, mandatory, limit, lifetime, data, log, now, response);
    var fields := ResponseFields(response);
    if s.request.Some? && StatusTag in fields {
      ClassifyWithStatus(fields);
    }
  }

  /** A response without a status (a failed transport included: it yields no tokens)
      gives the "No status in response." result, and that result arises only so. */
  lemma {:induction false} NoStatusResult(customerId: string, mandatory: seq<string>, limit: int,
      lifetime: int, data: seq<Entry>, log: Option<seq<int>>, now: int, response: seq<Token>)
    ensures var s := Process(customerId, mandatory, limit, lifetime, data, log, now, response);
      s.outcome == NoStatus <==> s.request.Some? && StatusTag !in ResponseFields(response)
  {
    var s := Process(customerId, mandatory, limit, lifetime, data, log, now, response);
    var fields := ResponseFields(response);
    if s.request.Some? && StatusTag in fields {
      ClassifyWithStatus(fields);
    }
    if !Throttled(limit, lifetime, log, now) && MissingFieldMessages(mandatory, Keys(data)) != [] {
      assert s.outcome.messages.Some?;
    }
  }

  /** With a limit of one, a declined attempt locks the session out for the following
      window: the next attempt within `lifetime` seconds is rejected without being sent. */
  lemma {:induction false} DeclineLocksOut(customerId: string, mandatory: seq<string>,
      lifetime: int, data: seq<Entry>, log: Option<seq<int>>, now: int, response: seq<Token>,
      data2: seq<Entry>, later: int, response2: seq<Token>)
    requires now <= later <= now + lifetime
    requires Process(customerId, mandatory, 1, lifetime, data, log, now, response).request.Some?
    requires Declined(ResponseFields(response))
    ensures var first := Process(customerId, mandatory, 1, lifetime, data, log, now, response);
      var second := Process(customerId, mandatory, 1, lifetime, data2, first.log, later, response2);
      second.outcome == TooManyAttempts && second.request.None?
  {
    LockoutAfterFailure(log, lifetime, now, later);
  }

  /** What the parser makes of a gateway reply declining a card. */
  const DeclinedResponse: seq<Token> := [
    Token("EWAYRESPONSE", 1, None),
    Token("EWAYTRXNSTATUS", 2, Some("False")),
    Token("EWAYTRXNNUMBER", 2, Some("10001")),
    Token("EWAYTRXNERROR", 2, Some("D,Declined"))]

  lemma DeclinedResponseFields()
    ensures var fields := ResponseFields(DeclinedResponse);
      && StatusTag in fields && fields[StatusTag] == "False"
      && TrxnNumberTag in fields && fields[TrxnNumberTag] == "10001"
      && ErrorTag in fields && fields[ErrorTag] == "D,Declined"
  {
    var r := DeclinedResponse;
    assert r[1].tag != r[2].tag && r[1].tag != r[3].tag && r[2].tag != r[3].tag;
    ResponseFieldsLast(r, 1);
    ResponseFieldsLast(r, 2);
    ResponseFieldsLast(r, 3);
  }

  /** A declined card with the throttle off: the gateway answers status "False" and
      error "D,Declined"; the result carries code "D", message "Declined" and the
      transaction number, the request is the encoding of the data, and the log is
      untouched. */
  lemma DeclinedExample(data: seq<Entry>, log: Option<seq<int>>, now: int, lifetime: int)
    requires forall f :: f in BaseMandatoryFields ==> f in Keys(data)
    ensures Process("87654321", MandatoryFields(false), 0, lifetime, data, log, now, DeclinedResponse)
      == Step(Outcome(false, Some("10001"), Some("D"), Some("Declined"), None), log,
              Some(RequestXml("87654321", data)))
  {
    NoMessagesIffComplete(MandatoryFields(false), Keys(data));
    DeclinedClassification();
  }

  lemma DeclinedClassification()
    ensures Classify(ResponseFields(DeclinedResponse))
      == Outcome(false, Some("10001"), Some("D"), Some("Declined"), None)
  {
    DeclinedResponseFields();
    var fields := ResponseFields(DeclinedResponse);
    assert fields[ErrorTag] == "D" + "," + "Declined";
    ClassifyErrorPair(fields, "D", "Declined");
  }

  /** Data lacking only the card number and the expiry year is rejected with exactly
      those two messages, in mandatory-list order, and nothing is sent. */
  lemma MissingFieldsExample(data: seq<Entry>, log: Option<seq<int>>, now: int, lifetime: int)
    requires "CardNumber" !in Keys(data) && "CardExpiryYear" !in Keys(data)
    requires "TotalAmount" in Keys(data) && "CardHoldersName" in Keys(data)
    requires "CardExpiryMonth" in Keys(data)
    ensures Process("87654321", MandatoryFields(false), 0, lifetime, data, log, now, [])
      == Step(ValidationFailure(["Missing mandatory field CardNumber",
                                 "Missing mandatory field CardExpiryYear"]), log, None)
  {
    BaseMessages(Keys(data));
  }

  lemma BaseMessages(keys: seq<string>)
    requires "CardNumber" !in keys && "CardExpiryYear" !in keys
    requires "TotalAmount" in keys && "CardHoldersName" in keys && "CardExpiryMonth" in keys
    ensures MissingFieldMessages(BaseMandatoryFields, keys)
      == ["Missing mandatory field CardNumber", "Missing mandatory field CardExpiryYear"]
  {
    var m := BaseMandatoryFields;
    assert m[..4][..3][..2][..1][..0] == [];
    assert MissingFieldMessages(m[..1], keys) == [];
    assert MissingFieldMessages(m[..2], keys) == [];
    assert m[..3][..2] == m[..2] && m[..3][2] == "CardNumber";
    assert MissingFieldMessages(m[..3], keys) == [MissingMessage("CardNumber")];
    assert m[..4][..3] == m[..3] && m[..4][3] == "CardExpiryMonth";
    assert MissingFieldMessages(m[..4], keys) == [MissingMessage("CardNumber")];
    assert m[..4] == m[..|m| - 1] && m[4] == "CardExpiryYear";
    assert MissingFieldMessages(m, keys) == [MissingMessage("CardNumber"), MissingMessage("CardExpiryYear")];
    assert MissingMessage("CardNumber") == "Missing mandatory field CardNumber";
    assert MissingMessage("CardExpiryYear") == "Missing mandatory field CardExpiryYear";
  }
}
