# eWAY gateway client, modelled in Dafny

This project models the `Eway` class of the PHP eWAY payment-gateway wrapper
(`Eway.php`). One client object holds four things:

- its configuration (customer id, gateway URL, anti-fraud flag, failed-attempt limit
  and window);
- the list of mandatory fields;
- the transaction data, a PHP ordered array of sanitized values;
- the last XML request it built.

A transaction attempt runs these steps in order:

1. The failed-attempt throttle checks a per-session log of failure timestamps.
2. Validation checks the mandatory fields.
3. The `<ewaygateway>` request document is encoded.
4. The request is sent.
5. The reply's second-level elements are extracted.
6. The reply is classified into the result array.
7. A declined attempt is recorded in the session log when the throttle is on.

The modules follow the parts of that class:

- `FieldSet`: the mandatory and optional field lists (`Eway.php:15-17`, `:27`).
- `TransactionStore`: the transaction data as an association list with distinct keys.
  - Assigning an existing key updates it in place.
  - A new key is appended at the end.
- `Validation`: the messages for missing mandatory fields.
- `RequestEncoder`: the request document as a string.
- `ResponseParser`: the fold from the XML parser's token list to the tag→value map.
- `Throttle`: counting failures over the sliding window, and recording one.
- `Strings`: PHP's `explode` and its inverse, `Join`.
- `Outcome`: the result array and how a decoded reply is classified.
- `Pipeline`: one attempt, end to end, as a function (`Process`).
- `Gateway`:
  - the class `Eway`, whose methods update its fields and contain the loops of the
    PHP code;
  - each loop is proved against the specification functions above;
  - `ProcessTransaction` is proved equal to `Pipeline.Process`.

The model takes these external inputs as parameters:

- The session log is a parameter `log: Option<seq<int>>`, where `None` means
  `$_SESSION['failedAttempts']` is unset. `ProcessTransaction` returns the new log.
- The clock (`strtotime('now')`) is a parameter `now`.
- `strtotime('now -N seconds')` is `now - N`.
- `htmlentities(trim(..))` is an uninterpreted function `sanitize`, fixed when the client
  is built.
- The gateway's reply is the list of records that `xml_parse_into_struct` produces
  (tag, level, optional value).
  - A transport failure yields an empty list: `sendXmlRequest` returns `false`, and
    parsing `false` gives no records.
- `$_SERVER` values are parameters of `VisitorIP`.

Three behaviours of the code are modelled as written:

- **The error tag.** The code `explode`s the error tag on every comma. It keeps segment 0
  as the code and segment 1 as the message. So "D,Declined,retry" gives the message
  "Declined", not "Declined,retry". `Outcome.ClassifyErrorWithComma` states this.
- **Transport failures.** The code reports a failed transport and a reply without a
  status the same way ("No status in response.").
- **Response levels.** Only level-2 records, the direct children of the root element,
  are extracted.

## Model

| member | source | states |
|---|---|---|
| Gateway.Eway.constructor | Eway.php:14-36 | The fields hold the given customer id and URL. The limit defaults to 0 and the window to 300. The mandatory list gains the anti-fraud pair exactly when `antiFraud` is 1. The data is empty and the data invariant (distinct keys) holds. |
| Gateway.Eway.Create | Eway.php:19-40 | Construction fails, with exception "Invalid eway configuration provided." and code 110, exactly when the customer id or the gateway URL is missing. Otherwise it yields a fresh valid client with the given customer id, URL and anti-fraud value. Its limit defaults to 0 and its window to 300. It has the mandatory list for its anti-fraud setting, empty data, no request yet and the given `sanitize`. |
| FieldSet.MandatoryFieldsShape | Eway.php:15-28 | The mandatory list is the five base fields. The two anti-fraud fields follow exactly when screening is on, and each of them is in the list iff screening is on. No field occurs twice. |
| FieldSet.MandatoryNotOptional | Eway.php:15-17 | No mandatory field, in either configuration, is among the optional fields. |
| FieldSet.OptionalFieldsDistinct | Eway.php:16-17 | The twelve optional fields are pairwise distinct. |
| Gateway.Eway.SetTransactionData | Eway.php:56-58 | The data becomes the old data with `key` assigned the sanitized value. Keys stay distinct. |
| Gateway.Eway.LoadTransactionData | Eway.php:47-51 | The loop leaves the data equal to assigning each entry's sanitized value in input order. Keys stay distinct. |
| TransactionStore.Assign | Eway.php:57 | The key list is unchanged when the key was present. Otherwise the new key is appended at the end. |
| TransactionStore.AssignLookup | Eway.php:57 | After an assignment the key holds the new value, and every other key keeps its value. |
| TransactionStore.AssignKeepsEntries | Eway.php:57 | Every entry of another key keeps its position and value. |
| TransactionStore.AssignDistinct | Eway.php:57 | An assignment preserves distinct keys. |
| TransactionStore.LoadAllLookup | Eway.php:47-51 | After a bulk load, a key holds the sanitized value of its last occurrence in the input. A key the input does not name keeps its old value. |
| TransactionStore.LoadAllDistinct | Eway.php:47-51 | A bulk load preserves distinct keys. |
| TransactionStore.LoadAllKeepsPositions | Eway.php:47-51 | A bulk load keeps the existing keys first, in their old order. |
| TransactionStore.LoadAllKeyMembership | Eway.php:47-51 | After a bulk load, a key is present iff it was present before or the input names it. |
| Gateway.Eway.ValidateTransactionData | Eway.php:161-175 | The loop yields exactly the messages of the missing mandatory fields, in list order. Success holds iff there are none. |
| Validation.MessagesPerMissingField | Eway.php:166-172 | There is one message "Missing mandatory field F" per missing field F, for all of them and in order, with no short circuit. |
| Validation.MissingFieldsMembership | Eway.php:166-171 | A field is reported iff it is mandatory and absent from the keys. |
| Validation.MessagesIgnoreKeyOrder | Eway.php:163-167 | The messages depend only on which keys are present, not on their order. |
| Validation.NoMessagesIffComplete | Eway.php:164-174 | There are no messages iff every mandatory field is present. |
| Gateway.Eway.PrepareXmlRequest | Eway.php:182-197 | The two loops build exactly the document `<ewaygateway>`, then the customer-id element, then one element per stored entry in stored order, then an empty element per unused optional field in declared order, then `</ewaygateway>`. |
| RequestEncoder.RequestBodyTagCount | Eway.php:184-193 | In the document body each stored field and each optional field occurs exactly once. No other tag occurs. |
| RequestEncoder.RequestBodyContent | Eway.php:184-193 | A stored field's element carries its stored value. An unused optional field's element is empty. Other tags are absent. |
| RequestEncoder.BlankOptionalsCount | Eway.php:189-193 | An empty element is emitted once for each optional field the data lacks, and for no other tag. |
| Gateway.ParseXmlResponse | Eway.php:228-238 | The loop yields exactly the fold of the level-2 records that carry a value into the tag→value map. |
| ResponseParser.ResponseFieldsKeys | Eway.php:232-236 | A tag has a field iff some level-2 record with that tag carries a value. |
| ResponseParser.ResponseFieldsLast | Eway.php:232-236 | A field's value is that of the last such record with its tag. |
| Gateway.CountFailedAttempts | Eway.php:84-90 | The loop counts exactly the logged timestamps at or after the cutoff. |
| Throttle.CountSinceAntitone | Eway.php:84-90 | Entries expire: a later cutoff never counts more. |
| Throttle.RecordFailure | Eway.php:119-125 | A failure appends `now` to an existing log and keeps its prefix. Otherwise it creates the log `[now]`. |
| Throttle.RecordedFailureCounts | Eway.php:119-125 | A recorded failure counts once toward every window that covers `now`. A missing log counts as empty. |
| Throttle.ThrottleDisabled | Eway.php:77 | With a limit of zero or less, nothing is ever throttled. |
| Throttle.WindowExample | Eway.php:84-94 | Failures at 0 and 100, with limit 2 and a 300-second window, block an attempt at 200 but not one at 500. |
| Throttle.LockoutAfterFailure | Eway.php:84-124 | With limit 1, a recorded failure blocks every attempt in the window after it. |
| Strings.Explode | Eway.php:136 | `explode` yields at least one segment. It yields exactly one iff the separator does not occur. |
| Strings.JoinExplode | Eway.php:136 | Joining the segments with the separator gives back the input. |
| Strings.ExplodeSegmentsFree | Eway.php:136 | No segment contains the separator. |
| Strings.ExplodeAtFirst | Eway.php:136 | The first segment is the text before the first separator, and the rest is the explode of what follows it. |
| Strings.ExplodeNoSeparator | Eway.php:136 | Input without a separator is its own single segment. |
| Strings.ExplodeJoin | Eway.php:136 | Exploding the join of separator-free segments gives back those segments. |
| Outcome.Classify | Eway.php:110-147 | A classified reply never carries the validation `messages` key. |
| Outcome.ClassifyWithStatus | Eway.php:111-143 | With a status present: success iff the status is "TRUE". The transaction number is set iff that tag is present, and then holds its value. The response code is set iff the error tag is present. The result is neither the throttle result nor the no-status result. |
| Outcome.ClassifyErrorWithoutComma | Eway.php:135-142 | An error value without a comma is all code, with no message. |
| Outcome.ClassifyErrorWithComma | Eway.php:135-142 | The code is the text before the first comma. The message runs to the next comma or the end. Further segments are dropped. |
| Outcome.ClassifyErrorPair | Eway.php:135-142 | "code,message" with no other comma yields exactly that code and message. |
| Gateway.Eway.ProcessTransaction | Eway.php:75-154 | The result and the new session log are those of `Pipeline.Process`. `xmlRequest` becomes the request sent, if one was sent, and is unchanged otherwise. |
| Pipeline.ThrottleRejection | Eway.php:77-96 | The throttle result is returned iff the throttle rejects. Nothing is then sent and the log is unchanged. |
| Pipeline.ThrottleOff | Eway.php:77 | With limit 0 the throttle never rejects and the log never changes. |
| Pipeline.MissingLogIsEmpty | Eway.php:83-124 | An unset log behaves as an empty one: same result, same request, and the same log after a failure. |
| Pipeline.InvalidData | Eway.php:99-153 | The `messages` key is set iff the throttle admits and a mandatory field is missing. The messages are then returned unchanged, nothing is sent and the log is unchanged. |
| Pipeline.RequestSent | Eway.php:99-102 | A request is sent iff the throttle admits and every mandatory field is present. It is the encoding of the stored data. |
| Pipeline.LogGrowth | Eway.php:111-126 | The log changes iff the throttle is on, the request was sent and the status is not "TRUE". It then gains `now` at the end. |
| Pipeline.SuccessIffApproved | Eway.php:111-117 | Success holds iff a request was sent and the reply's status is "TRUE". A success never changes the log. |
| Pipeline.NoStatusResult | Eway.php:145-147 | The result is "No status in response." iff a request was sent and the reply has no status. |
| Pipeline.DeclineLocksOut | Eway.php:84-124 | With limit 1, a declined attempt makes the next attempt within the window return the throttle result, with nothing sent. |
| Pipeline.DeclinedExample | Eway.php:110-143 | Customer 87654321 with complete data, throttle off and reply status "False", error "D,Declined": failure with code "D", message "Declined" and the transaction number. The request is sent and the log is untouched. |
| Pipeline.DeclinedClassification | Eway.php:135-142 | The declined reply classifies to code "D" and message "Declined". |
| Pipeline.MissingFieldsExample | Eway.php:161-175 | Data lacking the card number and expiry year yields exactly those two messages, in list order, and nothing is sent. |
| Gateway.VisitorIP | Eway.php:246-255 | The address is the forwarded-for header when that is a dotted quad of 1-3 digit groups. Otherwise it is the remote address. |
| Gateway.DottedQuadIffGroups | Eway.php:249 | A string passes the check iff it is four 1-3 digit groups joined by dots. |
| Gateway.DottedQuadShape | Eway.php:249 | A string that passes holds only digits and dots and is 7-15 characters long. So a proxy chain "a, b" never passes. |

## Left out

- `sendXmlRequest` and `setCurlOption` (`Eway.php:66-68`, `:204-221`) are left out.
  - They are network I/O through curl.
  - The reply is an input to `ProcessTransaction`, and a transport failure is the
    empty token list.
  - The curl options only configure the transport.
- `xml_parse_into_struct` is not modelled.
  - Its output (tag, level, value records) is the input.
  - So no property ties the request document to a parsed reply.
- The `xmlResponse` field is not kept. Only its parsed form is used.
- `htmlentities` and `trim` are the uninterpreted `sanitize`. No property depends on
  what they do.
- `session_start`, `$_SESSION`, `strtotime` and `$_SERVER` are parameters.
  - The window is `now - lifetime` for every integer lifetime.
  - What `strtotime` makes of a negative or non-numeric lifetime string is not modelled.
- Gateway.Eway.constructor: tests `antiFraud == 1` as exact equality with the integer 1,
  because PHP's loose comparison, under which `true` or "1" also enable screening, has
  no counterpart here. Gateway.Eway.Create inherits this.
- Configuration values are integers and strings, so PHP's loose typing of them is not
  modelled.
  - For example, a string `failedAttemptLimit` compared with `> 0`.
  - PHP also turns a numeric-string array key into an integer; keys here stay strings.
- Validation.MissingFieldMessages: tests key membership by exact string equality. The
  source's `in_array` at `Eway.php:167` compares loosely. Under PHP 5, which `ereg`
  requires, `'TotalAmount' == 0` holds. So data holding the integer key 0 (from
  `setTransactionData('0', ..)` or a list given to `loadTransactionData`) passes every
  mandatory field and the request is sent. The model reports those fields missing;
  Gateway.Eway.ValidateTransactionData and Pipeline.Process inherit this. Keys here
  are strings, so there is no integer key to model the coercion with.
- Pipeline.Process: uses one clock value `now` both for the throttle cutoff and for the
  failure it records. The source reads the clock twice: at `Eway.php:84` before the
  request, and at `:121`/`:124` after the network round trip. So Pipeline.LogGrowth's
  recorded `now` is the check time; the source records a time at least as late.
  Gateway.Eway.ProcessTransaction inherits this.
- `ereg`'s POSIX matching is modelled as `IsDottedQuad`, using `explode` on '.'. The
  removal of `ereg` from later PHP versions is not modelled.
- The session log is a shared mutable resource. Concurrent requests in one session are
  not modelled; each call takes the log and returns the new one.
- `demo.php` is not part of this model.
