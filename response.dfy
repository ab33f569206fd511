/** Response field extraction: the flat tag-to-value map built from the token list that
    the XML parser yields for the gateway's response. */
module ResponseParser {
  import opened Wrappers

  /** One record of the parser's output: the (upper-cased) tag, its nesting level and
      its text content, if it has any. */
  datatype Token = Token(tag: string, level: int, value: Option<string>)

  /** A token the extraction keeps: a direct child of the root that carries a value. */
  predicate Carries(t: Token)
  {
    t.value.Some? && t.level == 2
  }

  /** The fields of a response: every kept token, in order, later ones overwriting
      earlier ones with the same tag. */
  function ResponseFields(tokens: seq<Token>): (fields: map<string, string>)
  {
    if tokens == [] then map[]
    else
      var t := tokens[|tokens| - 1];
      var fields := ResponseFields(tokens[..|tokens| - 1]);
      if Carries(t) then fields[t.tag := t.value.value] else fields
  }

  /** A tag has a field iff some token with that tag is kept. */
  lemma {:induction false} ResponseFieldsKeys(tokens: seq<Token>, tag: string)
    ensures tag in ResponseFields(tokens) <==>
      exists i :: 0 <= i < |tokens| && Carries(tokens[i]) && tokens[i].tag == tag
    decreases |tokens|
  {
    if tokens != [] {
      var init := tokens[..|tokens| - 1];
      ResponseFieldsKeys(init, tag);
      if exists i :: 0 <= i < |init| && Carries(init[i]) && init[i].tag == tag {
        var i :| 0 <= i < |init| && Carries(init[i]) && init[i].tag == tag;
        assert tokens[i] == init[i];
      }
      if exists i :: 0 <= i < |tokens| && Carries(tokens[i]) && tokens[i].tag == tag {
        var i :| 0 <= i < |tokens| && Carries(tokens[i]) && tokens[i].tag == tag;
        if i < |init| { assert init[i] == tokens[i]; }
      }
    }
  }

  /** A field's value is that of the last kept token with its tag. */
  lemma {:induction false} ResponseFieldsLast(tokens: seq<Token>, i: nat)
    requires i < |tokens| && Carries(tokens[i])
    requires forall j :: i < j < |tokens| ==> !(Carries(tokens[j]) && tokens[j].tag == tokens[i].tag)
    ensures tokens[i].tag in ResponseFields(tokens)
    ensures ResponseFields(tokens)[tokens[i].tag] == tokens[i].value.value
    decreases |tokens|
  {
    var init := tokens[..|tokens| - 1];
    if i < |init| {
      assert init[i] == tokens[i];
      ResponseFieldsLast(init, i);
    }
  }
}
