/** The request encoder: the XML document sent to the gateway, built as a sequence of
    (tag, content) elements rendered one after another. */
module RequestEncoder {
  import opened Wrappers
  import opened TransactionStore
  import opened FieldSet

  /** One element, `<eway$tag>$content</eway$tag>`. */
  function Element(tag: string, content: string): (text: string)
  {
    "<eway" + tag + ">" + content + "</eway" + tag + ">"
  }

  /** The elements rendered in order. */
  function Render(elements: seq<Entry>): (text: string)
  {
    if elements == [] then ""
    else
      var last := elements[|elements| - 1];
      Render(elements[..|elements| - 1]) + Element(last.0, last.1)
  }

  /** An empty element for each field of `optional` not among `keys`, in order. */
  function BlankOptionals(optional: seq<string>, keys: seq<string>): (blanks: seq<Entry>)
  {
    if optional == [] then []
    else
      var field := optional[|optional| - 1];
      BlankOptionals(optional[..|optional| - 1], keys) + (if field in keys then [] else [(field, "")])
  }

  /** The fields of the request after the customer id: the stored entries in stored
      order, then a blank for each unused optional field in declared order. */
  function RequestBody(data: seq<Entry>): (body: seq<Entry>)
  {
    data + BlankOptionals(OptionalFields, Keys(data))
  }

  /** The tags that open and close the request document. */
  const DocumentOpen := "<ewaygateway>"
  const DocumentClose := "</ewaygateway>"

  /** The whole request document. */
  function RequestXml(customerId: string, data: seq<Entry>): (document: string)
  {
    DocumentOpen + Render([("CustomerID", customerId)] + RequestBody(data)) + DocumentClose
  }

  /** Rendering one more element appends its text. */
  lemma RenderSnoc(elements: seq<Entry>, e: Entry)
    ensures Render(elements + [e]) == Render(elements) + Element(e.0, e.1)
  {
    assert (elements + [e])[..|elements|] == elements;
  }

  /** The encoder loop's final step: once every optional field has been visited,
      closing what the elements render to gives the document over the stored entries
      followed by the blanks. The requires keep the loops' full slices `data[..|data|]`
      and `optional[..|optional|]`, and `optional` is a parameter rather than the
      declared list: with the literal list and a slice of it in one context the solver
      unfolds `BlankOptionals` over every declared field and runs out of resources. */
  lemma RequestComplete(request: string, customerId: string, data: seq<Entry>, optional: seq<string>, elements: seq<Entry>)
    requires elements == [("CustomerID", customerId)] + data[..|data|] + BlankOptionals(optional[..|optional|], Keys(data))
    requires Renders(request, elements)
    ensures request + DocumentClose
      == DocumentOpen + Render([("CustomerID", customerId)] + data + BlankOptionals(optional, Keys(data))) + DocumentClose
  {
    FullSlice(optional);
    FullSlice(data);
  }

  /** With the declared optional fields, that document is the request document. */
  lemma DeclaredOptionals(closed: string, customerId: string, data: seq<Entry>, optional: seq<string>)
    requires optional == OptionalFields
    requires closed == DocumentOpen + Render([("CustomerID", customerId)] + data + BlankOptionals(optional, Keys(data))) + DocumentClose
    ensures closed == RequestXml(customerId, data)
  {
    var blanks := BlankOptionals(optional, Keys(data));
    assert [("CustomerID", customerId)] + data + blanks == [("CustomerID", customerId)] + (data + blanks);
  }

  lemma FullSlice<T>(s: seq<T>)
    ensures s[..|s|] == s
  {
  }

  /** `request` is the opening tag followed by the rendered `elements`. */
  predicate Renders(request: string, elements: seq<Entry>)
  {
    request == DocumentOpen + Render(elements)
  }

  /** The encoder loop's step: appending one element's text. */
  lemma RendersStep(request: string, elements: seq<Entry>, e: Entry)
    requires Renders(request, elements)
    ensures Renders(request + Element(e.0, e.1), elements + [e])
  {
    RenderSnoc(elements, e);
  }

  /** The encoder loop's step over the stored entries. */
  lemma PrefixStep(data: seq<Entry>, i: nat)
    requires i < |data|
    ensures data[..i + 1] == data[..i] + [data[i]]
  {
  }

  /** The encoder loop's step over the optional fields. */
  lemma BlankOptionalsStep(optional: seq<string>, keys: seq<string>, j: nat)
    requires j < |optional|
    ensures BlankOptionals(optional[..j + 1], keys)
      == BlankOptionals(optional[..j], keys) + (if optional[j] in keys then [] else [(optional[j], "")])
  {
    assert optional[..j + 1][..j] == optional[..j];
  }

  /** The encoder loop's start: the opening tag and the customer-id element. */
  lemma RenderStart(e: Entry)
    ensures Renders(DocumentOpen + Element(e.0, e.1), [e])
  {
    RenderSnoc([], e);
    assert [] + [e] == [e];
  }

  /** Number of elements with tag `t`. */
  function TagCount(elements: seq<Entry>, t: string): (n: nat)
  {
    if elements == [] then 0
    else (if elements[0].0 == t then 1 else 0) + TagCount(elements[1..], t)
  }

  lemma {:induction false} TagCountAppend(a: seq<Entry>, b: seq<Entry>, t: string)
    ensures TagCount(a + b, t) == TagCount(a, t) + TagCount(b, t)
    decreases |a|
  {
    if a == [] {
      assert a + b == b;
    } else {
      assert (a + b)[1..] == a[1..] + b;
      TagCountAppend(a[1..], b, t);
    }
  }

  lemma {:induction false} TagCountDistinct(d: seq<Entry>, t: string)
    requires DistinctKeys(d)
    ensures TagCount(d, t) == if t in Keys(d) then 1 else 0
    decreases |d|
  {
    if d != [] {
      TagCountDistinct(d[1..], t);
      assert Keys(d) == [d[0].0] + Keys(d[1..]);
    }
  }

  /** Each blank is an optional field that the keys lack, named once. */
  lemma {:induction false} BlankOptionalsCount(optional: seq<string>, keys: seq<string>, t: string)
    requires NoDuplicates(optional)
    ensures TagCount(BlankOptionals(optional, keys), t) == if t in optional && t !in keys then 1 else 0
    ensures forall i :: 0 <= i < |BlankOptionals(optional, keys)| ==> BlankOptionals(optional, keys)[i].1 == ""
    decreases |optional|
  {
    if optional != [] {
      var init := optional[..|optional| - 1];
      var field := optional[|optional| - 1];
      BlankOptionalsCount(init, keys, t);
      TagCountAppend(BlankOptionals(init, keys), if field in keys then [] else [(field, "")], t);
      assert optional == init + [field];
      assert field !in init;
    }
  }

  /** In the request body every stored field and every optional field has exactly one
      element and no other tag occurs. */
  lemma {:induction false} RequestBodyTagCount(data: seq<Entry>, t: string)
    requires DistinctKeys(data)
    ensures TagCount(RequestBody(data), t) == if t in Keys(data) || t in OptionalFields then 1 else 0
  {
    OptionalFieldsDistinct();
    TagCountAppend(data, BlankOptionals(OptionalFields, Keys(data)), t);
    TagCountDistinct(data, t);
    BlankOptionalsCount(OptionalFields, Keys(data), t);
  }

  lemma {:induction false} LookupAppend(a: seq<Entry>, b: seq<Entry>, t: string)
    ensures Lookup(a + b, t) == if t in Keys(a) then Lookup(a, t) else Lookup(b, t)
    decreases |a|
  {
    if a == [] {
      assert a + b == b;
    } else {
      assert (a + b)[1..] == a[1..] + b;
      LookupAppend(a[1..], b, t);
      assert Keys(a) == [a[0].0] + Keys(a[1..]);
    }
  }

  /** The element of a stored field carries its stored value; the element of an unused
      optional field is empty. */
  lemma {:induction false} RequestBodyContent(data: seq<Entry>, t: string)
    ensures Lookup(RequestBody(data), t) ==
      if t in Keys(data) then Lookup(data, t)
      else if t in OptionalFields then Some("")
      else None
  {
    var blanks := BlankOptionals(OptionalFields, Keys(data));
    LookupAppend(data, blanks, t);
    OptionalFieldsDistinct();
    BlankOptionalsCount(OptionalFields, Keys(data), t);
    BlankLookup(blanks, t);
  }

  lemma {:induction false} BlankLookup(blanks: seq<Entry>, t: string)
    requires forall i :: 0 <= i < |blanks| ==> blanks[i].1 == ""
    ensures Lookup(blanks, t) == if TagCount(blanks, t) > 0 then Some("") else None
    decreases |blanks|
  {
    if blanks != [] {
      BlankLookup(blanks[1..], t);
    }
  }
}
