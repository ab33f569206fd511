/** The result a transaction attempt returns, and how a decoded response is classified
    into one. */
module Outcome {
  import opened Wrappers
  import opened Strings

  /** The result array of an attempt. Each key the PHP array may lack is an Option:
      `messages` is set only by a failed validation; the others only by the throttle,
      a missing status or the classification of a response. */
  datatype Outcome = Outcome(
    success: bool,
    transactionNumber: Option<string>,
    responseCode: Option<string>,
    responseMessage: Option<string>,
    messages: Option<seq<string>>)

  const StatusTag := "EWAYTRXNSTATUS"
  const TrxnNumberTag := "EWAYTRXNNUMBER"
  const ErrorTag := "EWAYTRXNERROR"

  /** The status value that marks an approved transaction. */
  const Approved := "TRUE"

  /** The result when the throttle rejects the attempt. */
  const TooManyAttempts := Outcome(false, None, None,
    Some("Too many failed payment attempts. Please wait a while before attempting another payment."), None)

  /** The result when the response has no status (including a failed transport,
      whose empty response yields no fields). */
  const NoStatus := Outcome(false, None, None, Some("No status in response."), None)

  /** The result of a failed validation: its messages, unchanged. */
  function ValidationFailure(messages: seq<string>): (r: Outcome)
  {
    Outcome(false, None, None, None, Some(messages))
  }

  /** Whether the response marks a declined transaction (it has a status, and the
      status is not the approval value). */
  predicate Declined(fields: map<string, string>)
  {
    StatusTag in fields && fields[StatusTag] != Approved
  }

  /** The outcome of a decoded response. */
  function Classify(fields: map<string, string>): (r: Outcome)
    ensures r.messages.None?
  {
    if StatusTag !in fields then NoStatus
    else
      var parts := if ErrorTag in fields then Explode(',', fields[ErrorTag]) else [];
      Outcome(
        fields[StatusTag] == Approved,
        if TrxnNumberTag in fields then Some(fields[TrxnNumberTag]) else None,
        if |parts| > 0 then Some(parts[0]) else None,
        if |parts| > 1 then Some(parts[1]) else None,
        None)
  }

  /** With a status present, success means the status is the approval value, and the
      transaction number and response code are set exactly when the response carries
      the number and error tags. */
  lemma ClassifyWithStatus(fields: map<string, string>)
    requires StatusTag in fields
    ensures var r := Classify(fields);
      && (r.success <==> fields[StatusTag] == Approved)
      && (r.transactionNumber.Some? <==> TrxnNumberTag in fields)
      && (TrxnNumberTag in fields ==> r.transactionNumber.value == fields[TrxnNumberTag])
      && (r.responseCode.Some? <==> ErrorTag in fields)
      && (ErrorTag !in fields ==> r.responseMessage.None?)
      && r != NoStatus && r != TooManyAttempts
  {
  }

  /** An error value without a comma is all response code, and there is no message. */
  lemma ClassifyErrorWithoutComma(fields: map<string, string>)
    requires StatusTag in fields && ErrorTag in fields && ',' !in fields[ErrorTag]
    ensures Classify(fields).responseCode == Some(fields[ErrorTag])
    ensures Classify(fields).responseMessage.None?
  {
    ExplodeNoSeparator(',', fields[ErrorTag]);
  }

  /** With a comma at `i` (the first one), the code is the text before it and the
      message is the text from there up to the next comma `j` or to the end; any
      further segments are dropped. */
  lemma ClassifyErrorWithComma(fields: map<string, string>, i: nat, j: nat)
    requires StatusTag in fields && ErrorTag in fields
    requires var e := fields[ErrorTag];
      && i < j <= |e| && e[i] == ',' && ',' !in e[..i]
      && ',' !in e[i + 1..j] && (j == |e| || e[j] == ',')
    ensures Classify(fields).responseCode == Some(fields[ErrorTag][..i])
    ensures Classify(fields).responseMessage == Some(fields[ErrorTag][i + 1..j])
  {
    var e := fields[ErrorTag];
    ExplodeAtFirst(',', e, i);
    var tail := e[i + 1..];
    if j == |e| {
      assert tail == e[i + 1..j];
      ExplodeNoSeparator(',', tail);
    } else {
      assert tail[j - i - 1] == ',' && tail[..j - i - 1] == e[i + 1..j];
      ExplodeAtFirst(',', tail, j - i - 1);
    }
  }

  /** An error value "code,message" with no other comma yields exactly that code and
      that message. */
  lemma ClassifyErrorPair(fields: map<string, string>, code: string, message: string)
    requires StatusTag in fields && ErrorTag in fields
    requires fields[ErrorTag] == code + "," + message && ',' !in code && ',' !in message
    ensures Classify(fields).responseCode == Some(code)
    ensures Classify(fields).responseMessage == Some(message)
  {
    var e := fields[ErrorTag];
    assert e[..|code|] == code && e[|code|] == ',' && e[|code| + 1..|e|] == message;
    ClassifyErrorWithComma(fields, |code|, |e|);
  }
}
