/** The validator: one message per mandatory field the transaction data lacks. */
module Validation {

  /** The message reported for a missing mandatory field. */
  function MissingMessage(field: string): (message: string)
  {
    "Missing mandatory field " + field
  }

  /** The messages for every field of `mandatory` that is not among `keys`, in the
      order of `mandatory`. */
  function MissingFieldMessages(mandatory: seq<string>, keys: seq<string>): (messages: seq<string>)
  {
    if mandatory == [] then []
    else
      var field := mandatory[|mandatory| - 1];
      MissingFieldMessages(mandatory[..|mandatory| - 1], keys)
        + (if field in keys then [] else [MissingMessage(field)])
  }

  /** The fields of `mandatory` that are not among `keys`, in order. */
  function MissingFields(mandatory: seq<string>, keys: seq<string>): (missing: seq<string>)
  {
    if mandatory == [] then []
    else if mandatory[0] in keys then MissingFields(mandatory[1..], keys)
    else [mandatory[0]] + MissingFields(mandatory[1..], keys)
  }

  lemma MissingFieldsAppend(mandatory: seq<string>, field: string, keys: seq<string>)
    ensures MissingFields(mandatory + [field], keys)
         == MissingFields(mandatory, keys) + MissingFields([field], keys)
  {
    if mandatory != [] {
      assert (mandatory + [field])[1..] == mandatory[1..] + [field];
    }
  }

  /** The messages are exactly one per missing field, for all of them (no short
      circuit), in mandatory-list order. */
  lemma {:induction false} MessagesPerMissingField(mandatory: seq<string>, keys: seq<string>)
    ensures var msgs := MissingFieldMessages(mandatory, keys);
      var missing := MissingFields(mandatory, keys);
      |msgs| == |missing| && forall i :: 0 <= i < |msgs| ==> msgs[i] == MissingMessage(missing[i])
    decreases |mandatory|
  {
    if mandatory != [] {
      var init := mandatory[..|mandatory| - 1];
      var field := mandatory[|mandatory| - 1];
      MessagesPerMissingField(init, keys);
      assert init + [field] == mandatory;
      MissingFieldsAppend(init, field, keys);
    }
  }

  /** A field is reported iff it is mandatory and absent. */
  lemma {:induction false} MissingFieldsMembership(mandatory: seq<string>, keys: seq<string>, f: string)
    ensures f in MissingFields(mandatory, keys) <==> f in mandatory && f !in keys
    decreases |mandatory|
  {
    if mandatory != [] {
      MissingFieldsMembership(mandatory[1..], keys, f);
      assert mandatory == [mandatory[0]] + mandatory[1..];
    }
  }

  /** The validation outcome depends only on which keys are present, not on their order. */
  lemma {:induction false} MessagesIgnoreKeyOrder(mandatory: seq<string>, keys1: seq<string>, keys2: seq<string>)
    requires forall f :: f in keys1 <==> f in keys2
    ensures MissingFieldMessages(mandatory, keys1) == MissingFieldMessages(mandatory, keys2)
    decreases |mandatory|
  {
    if mandatory != [] {
      MessagesIgnoreKeyOrder(mandatory[..|mandatory| - 1], keys1, keys2);
    }
  }

  /** There are no messages iff every mandatory field is present. */
  lemma {:induction false} NoMessagesIffComplete(mandatory: seq<string>, keys: seq<string>)
    ensures MissingFieldMessages(mandatory, keys) == [] <==> forall f :: f in mandatory ==> f in keys
    decreases |mandatory|
  {
    if mandatory != [] {
      var init := mandatory[..|mandatory| - 1];
      NoMessagesIffComplete(init, keys);
      assert mandatory == init + [mandatory[|mandatory| - 1]];
    }
  }
}
