/** The gateway client: configuration, mandatory-field list, transaction data and the
    last request it sent, with the operations that fill and process them. */
module Gateway {
  import opened Wrappers
  import opened Strings
  import opened FieldSet
  import opened TransactionStore
  import opened Validation
  import opened RequestEncoder
  import opened ResponseParser
  import opened Throttle
  import opened Outcome
  import opened Pipeline

  /** The configuration array; each key may be unset. */
  datatype Config = Config(
    customerId: Option<string>,
    gatewayURL: Option<string>,
    antiFraud: Option<int>,
    failedAttemptLimit: Option<int>,
    failedAttemptLifetime: Option<int>)

  /** The exception construction throws. */
  datatype Exception = Exception(message: string, code: int)

  const InvalidConfiguration := Exception("Invalid eway configuration provided.", 110)

  /** Whether a configuration names both a customer id and a gateway URL. */
  predicate Accepted(config: Config)
  {
    config.customerId.Some? && config.gatewayURL.Some?
  }

  /** Counts the log entries at or after `cutoff`, one at a time. */
  method CountFailedAttempts(log: seq<int>, cutoff: int) returns (failedAttempts: nat)
    ensures failedAttempts == CountSince(log, cutoff)
  {
    failedAttempts := 0;
    for i := 0 to |log|
      invariant failedAttempts == CountSince(log[..i], cutoff)
    {
      assert log[..i + 1][..i] == log[..i];
      if log[i] >= cutoff {
        failedAttempts := failedAttempts + 1;
      }
    }
    assert log[..|log|] == log;
  }

  /** Collects the fields of the response, token by token; a later kept token
      overwrites an earlier one with the same tag. */
  method ParseXmlResponse(tokens: seq<Token>) returns (responseFields: map<string, string>)
    ensures responseFields == ResponseFields(tokens)
  {
    responseFields := map[];
    for i := 0 to |tokens|
      invariant responseFields == ResponseFields(tokens[..i])
    {
      assert tokens[..i + 1][..i] == tokens[..i];
      var data := tokens[i];
      if data.value.Some? && data.level == 2 {
        responseFields := responseFields[data.tag := data.value.value];
      }
    }
    assert tokens[..|tokens|] == tokens;
  }

  class Eway {
    var customerId: string
    var gatewayURL: string
    var antiFraud: Option<int>
    var failedAttemptLimit: int
    var failedAttemptLifetime: int
    var mandatoryFields: seq<string>
    var transactionData: seq<Entry>
    /** The request document of the last transaction that got as far as sending. */
    var xmlRequest: Option<string>
    /** Trimming and HTML-entity escaping of a stored value. */
    const sanitize: string -> string

    /** The transaction data is a PHP array: no key twice. */
    ghost predicate Valid()
      reads this
    {
      DistinctKeys(transactionData)
    }

    /** The successful branch of construction: both required keys are present. */
    constructor (config: Config, sanitize: string -> string)
      requires Accepted(config)
      ensures Valid()
      ensures customerId == config.customerId.value && gatewayURL == config.gatewayURL.value
      ensures antiFraud == config.antiFraud
      ensures failedAttemptLimit == (if config.failedAttemptLimit.Some? then config.failedAttemptLimit.value else 0)
      ensures failedAttemptLifetime == (if config.failedAttemptLifetime.Some? then config.failedAttemptLifetime.value else 300)
      ensures mandatoryFields == MandatoryFields(config.antiFraud == Some(1))
      ensures transactionData == [] && xmlRequest == None && this.sanitize == sanitize
    {
      this.sanitize := sanitize;
      antiFraud := None;
      failedAttemptLimit := 0;
      failedAttemptLifetime := 300;
      transactionData := [];
      xmlRequest := None;
      mandatoryFields := BaseMandatoryFields;
      customerId := config.customerId.value;
      gatewayURL := config.gatewayURL.value;
      if config.antiFraud.Some? {
        antiFraud := config.antiFraud;
        if config.antiFraud.value == 1 {
          mandatoryFields := mandatoryFields + AntiFraudFields;
        }
      }
      if config.failedAttemptLimit.Some? {
        failedAttemptLimit := config.failedAttemptLimit.value;
      }
      if config.failedAttemptLifetime.Some? {
        failedAttemptLifetime := config.failedAttemptLifetime.value;
      }
    }

    /** Construction: fails with exception 110 unless both the customer id and the
        gateway URL are given. */
    static method Create(config: Config, sanitize: string -> string) returns (r: Result<Eway, Exception>)
      ensures r.Failure? <==> !Accepted(config)
      ensures r.Failure? ==> r.error == InvalidConfiguration
      ensures r.Success? ==>
        && fresh(r.value) && r.value.Valid() && r.value.transactionData == []
        && r.value.customerId == config.customerId.value
        && r.value.gatewayURL == config.gatewayURL.value
        && r.value.antiFraud == config.antiFraud
        && r.value.failedAttemptLimit
             == (if config.failedAttemptLimit.Some? then config.failedAttemptLimit.value else 0)
        && r.value.failedAttemptLifetime
             == (if config.failedAttemptLifetime.Some? then config.failedAttemptLifetime.value else 300)
        && r.value.mandatoryFields == MandatoryFields(config.antiFraud == Some(1))
        && r.value.xmlRequest == None && r.value.sanitize == sanitize
    {
      if Accepted(config) {
        var eway := new Eway(config, sanitize);
        r := Success(eway);
      } else {
        r := Failure(InvalidConfiguration);
      }
    }

    /** Stores each entry in turn, sanitized: the same as one `SetTransactionData` call
        per entry, in input order. */
    method LoadTransactionData(entries: seq<Entry>)
      requires Valid()
      modifies this`transactionData
      ensures Valid()
      ensures transactionData == LoadAll(old(transactionData), entries, sanitize)
    {
      for i := 0 to |entries|
        invariant Valid()
        invariant transactionData == LoadAll(old(transactionData), entries[..i], sanitize)
      {
        assert entries[..i + 1][..i] == entries[..i];
        var (key, value) := entries[i];
        AssignDistinct(transactionData, key, sanitize(value));
        transactionData := Assign(transactionData, key, sanitize(value));
      }
      assert entries[..|entries|] == entries;
    }

    /** Stores one value, sanitized, under `key`: in place if the key exists, at the end
        otherwise. */
    method SetTransactionData(key: string, value: string)
      requires Valid()
      modifies this`transactionData
      ensures Valid()
      ensures transactionData == Assign(old(transactionData), key, sanitize(value))
    {
      AssignDistinct(transactionData, key, sanitize(value));
      transactionData := Assign(transactionData, key, sanitize(value));
    }

    /** Checks every mandatory field against the stored keys and reports each missing
        one; valid exactly when none is missing. */
    method ValidateTransactionData() returns (success: bool, messages: seq<string>)
      ensures messages == MissingFieldMessages(mandatoryFields, Keys(transactionData))
      ensures success <==> messages == []
    {
      var transactionKeys := Keys(transactionData);
      success := true;
      messages := [];
      for i := 0 to |mandatoryFields|
        invariant messages == MissingFieldMessages(mandatoryFields[..i], transactionKeys)
        invariant success <==> messages == []
      {
        assert mandatoryFields[..i + 1][..i] == mandatoryFields[..i];
        var field := mandatoryFields[i];
        if field !in transactionKeys {
          success := false;
          messages := messages + [MissingMessage(field)];
        }
      }
      assert mandatoryFields[..|mandatoryFields|] == mandatoryFields;
    }

    /** Builds the request document: header with the customer id, one element per stored
        entry in stored order, an empty element per unused optional field, footer. */
    method PrepareXmlRequest() returns (request: string)
      ensures request == RequestXml(customerId, transactionData)
    {
      ghost var elements := [("CustomerID", customerId)];
      request := DocumentOpen + Element("CustomerID", customerId);
      RenderStart(elements[0]);
      for i := 0 to |transactionData|
        invariant elements == [("CustomerID", customerId)] + transactionData[..i]
        invariant Renders(request, elements)
      {
        var (key, value) := transactionData[i];
        RendersStep(request, elements, (key, value));
        request := request + Element(key, value);
        elements := elements + [(key, value)];
        PrefixStep(transactionData, i);
      }
      var keys := Keys(transactionData);
      ghost var entries := elements;
      var optional := OptionalFields;
      for j := 0 to |optional|
        invariant elements == entries + BlankOptionals(optional[..j], keys)
        invariant Renders(request, elements)
      {
        var field := optional[j];
        BlankOptionalsStep(optional, keys, j);
        if field !in keys {
          RendersStep(request, elements, (field, ""));
          request := request + Element(field, "");
          elements := elements + [(field, "")];
        }
      }
      RequestComplete(request, customerId, transactionData, optional, elements);
      request := request + DocumentClose;
      DeclaredOptionals(request, customerId, transactionData, optional);
    }

    /** One transaction attempt against the session's failure log `log` at time `now`,
        where `response` is what the XML parser makes of the gateway's reply (nothing,
        when the transport failed). Returns the result and the session's log afterwards. */
    method ProcessTransaction(log: Option<seq<int>>, now: int, response: seq<Token>)
      returns (result: Outcome, log': Option<seq<int>>)
      requires Valid()
      modifies this`xmlRequest
      ensures Valid()
      ensures var s := Process(customerId, mandatoryFields, failedAttemptLimit, failedAttemptLifetime,
                               transactionData, log, now, response);
        && result == s.outcome && log' == s.log
        && xmlRequest == (if s.request.Some? then s.request else old(xmlRequest))
    {
      log' := log;
      if failedAttemptLimit > 0 {
        if log.Some? {
          var lifetime := now - failedAttemptLifetime;
          var failedAttempts := CountFailedAttempts(log.value, lifetime);
          if failedAttempts >= failedAttemptLimit {
            return TooManyAttempts, log;
          }
        }
      }

      assert !Throttled(failedAttemptLimit, failedAttemptLifetime, log, now);
      var valid, messages := ValidateTransactionData();
      if valid {
        var request := PrepareXmlRequest();
        xmlRequest := Some(request);
        var requestResults := ParseXmlResponse(response);

        if StatusTag in requestResults {
          var success := false;
          if requestResults[StatusTag] == Approved {
            success := true;
          } else {
            if failedAttemptLimit > 0 {
              if log.Some? {
                log' := Some(log.value + [now]);
              } else {
                log' := Some([now]);
              }
            }
          }
          var transactionNumber: Option<string> := None;
          if TrxnNumberTag in requestResults {
            transactionNumber := Some(requestResults[TrxnNumberTag]);
          }
          var responseCode: Option<string> := None;
          var responseMessage: Option<string> := None;
          if ErrorTag in requestResults {
            var errorParts := Explode(',', requestResults[ErrorTag]);
            responseCode := Some(errorParts[0]);
            if |errorParts| > 1 {
              responseMessage := Some(errorParts[1]);
            }
          }
          result := Outcome(success, transactionNumber, responseCode, responseMessage, None);
          assert result == Classify(requestResults);
          assert log' == if RecordsFailure(failedAttemptLimit, requestResults)
                         then Some(RecordFailure(log, now)) else log;
        } else {
          result := NoStatus;
        }
      } else {
        result := ValidationFailure(messages);
      }
    }
  }

  /** The client's address: the forwarded-for header when it is a dotted quad of 1-3
      digit groups, the remote address otherwise. */
  function VisitorIP(remoteAddr: string, forwardedFor: Option<string>): (ip: string)
    ensures ip == remoteAddr || (forwardedFor == Some(ip) && IsDottedQuad(ip))
    ensures forwardedFor.Some? && IsDottedQuad(forwardedFor.value) ==> ip == forwardedFor.value
  {
    var ip := remoteAddr;
    if forwardedFor.Some? && IsDottedQuad(forwardedFor.value) then forwardedFor.value else ip
  }

  /** One to three decimal digits. */
  predicate IsDigitGroup(g: string)
  {
    1 <= |g| <= 3 && forall i :: 0 <= i < |g| ==> '0' <= g[i] <= '9'
  }

  /** Four digit groups separated by dots, and nothing else. */
  predicate IsDottedQuad(s: string)
  {
    var groups := Explode('.', s);
    |groups| == 4 && forall i :: 0 <= i < 4 ==> IsDigitGroup(groups[i])
  }

  /** Every four digit groups joined by dots form a dotted quad, and every dotted quad
      is four digit groups joined by dots. */
  lemma DottedQuadIffGroups(s: string)
    ensures IsDottedQuad(s) <==>
      exists a, b, c, d :: IsDigitGroup(a) && IsDigitGroup(b) && IsDigitGroup(c) && IsDigitGroup(d)
        && s == a + "." + b + "." + c + "." + d
  {
    if IsDottedQuad(s) {
      var g := Explode('.', s);
      JoinExplode('.', s);
      JoinFour(g);
      assert IsDigitGroup(g[0]) && IsDigitGroup(g[1]) && IsDigitGroup(g[2]) && IsDigitGroup(g[3]);
    }
    if exists a, b, c, d :: IsDigitGroup(a) && IsDigitGroup(b) && IsDigitGroup(c) && IsDigitGroup(d)
        && s == a + "." + b + "." + c + "." + d {
      var a, b, c, d :| IsDigitGroup(a) && IsDigitGroup(b) && IsDigitGroup(c) && IsDigitGroup(d)
        && s == a + "." + b + "." + c + "." + d;
      DigitGroupHasNoDot(a);
      DigitGroupHasNoDot(b);
      DigitGroupHasNoDot(c);
      DigitGroupHasNoDot(d);
      JoinFour([a, b, c, d]);
      ExplodeJoin('.', [a, b, c, d]);
    }
  }

  lemma DigitGroupHasNoDot(g: string)
    requires IsDigitGroup(g)
    ensures '.' !in g
  {
    forall i | 0 <= i < |g| ensures g[i] != '.' { }
  }

  lemma JoinFour(g: seq<string>)
    requires |g| == 4
    ensures Join('.', g) == g[0] + "." + g[1] + "." + g[2] + "." + g[3]
  {
    assert g[1..][1..] == g[2..];
    assert g[2..][1..] == g[3..];
    assert Join('.', g[3..]) == g[3];
    assert Join('.', g[2..]) == g[2] + "." + g[3];
    assert Join('.', g[1..]) == g[1] + "." + (g[2] + "." + g[3]);
  }

  /** A dotted quad holds only digits and dots and is 7 to 15 characters long; in
      particular a forwarded-for header naming a chain of proxies ("a, b") never is one. */
  lemma DottedQuadShape(s: string)
    requires IsDottedQuad(s)
    ensures forall k :: 0 <= k < |s| ==> s[k] == '.' || '0' <= s[k] <= '9'
    ensures ',' !in s && 7 <= |s| <= 15
  {
    DottedQuadIffGroups(s);
    var a, b, c, d :| IsDigitGroup(a) && IsDigitGroup(b) && IsDigitGroup(c) && IsDigitGroup(d)
        && s == a + "." + b + "." + c + "." + d;
    assert forall k :: 0 <= k < |s| ==> s[k] == '.' || '0' <= s[k] <= '9';
  }
}
