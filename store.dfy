/** The transaction data of a request: PHP's ordered array, modelled as an association
    list whose keys are distinct and whose order is insertion order. */
module TransactionStore {
  import opened Wrappers

  /** One stored field: name and (already sanitized) value. */
  type Entry = (string, string)

  /** The field names, in stored order (PHP's `array_keys`). */
  function Keys(d: seq<Entry>): (ks: seq<string>)
    ensures |ks| == |d|
    ensures forall i :: 0 <= i < |d| ==> ks[i] == d[i].0
  {
    if d == [] then [] else [d[0].0] + Keys(d[1..])
  }

  lemma KeysSnoc(d: seq<Entry>, e: Entry)
    ensures Keys(d + [e]) == Keys(d) + [e.0]
  {
  }

  /** The invariant of a PHP array: no key occurs twice. */
  predicate DistinctKeys(d: seq<Entry>)
  {
    forall i, j :: 0 <= i < j < |d| ==> d[i].0 != d[j].0
  }

  /** The value stored under `k`, if any (`isset($data[$k])`). */
  function Lookup(d: seq<Entry>, k: string): (v: Option<string>)
    ensures v.Some? <==> k in Keys(d)
  {
    if d == [] then None
    else if d[0].0 == k then Some(d[0].1)
    else Lookup(d[1..], k)
  }

  /** PHP's `$data[$k] = $v`: an existing key is overwritten where it stands, a new
      key goes at the end. */
  function Assign(d: seq<Entry>, k: string, v: string): (r: seq<Entry>)
    ensures Keys(r) == if k in Keys(d) then Keys(d) else Keys(d) + [k]
  {
    if d == [] then [(k, v)]
    else if d[0].0 == k then [(k, v)] + d[1..]
    else
      var r := [d[0]] + Assign(d[1..], k, v);
      assert Keys(r) == [d[0].0] + Keys(Assign(d[1..], k, v));
      r
  }

  /** After an assignment `k` holds `v` and every other key keeps its value. */
  lemma {:induction false} AssignLookup(d: seq<Entry>, k: string, v: string, j: string)
    ensures Lookup(Assign(d, k, v), j) == if j == k then Some(v) else Lookup(d, j)
  {
    if d != [] && d[0].0 != k {
      AssignLookup(d[1..], k, v, j);
      assert Assign(d, k, v)[1..] == Assign(d[1..], k, v);
    } else if d != [] {
      assert Assign(d, k, v)[1..] == d[1..];
    }
  }

  /** An assignment leaves every entry of another key at its position, unchanged. */
  lemma {:induction false} AssignKeepsEntries(d: seq<Entry>, k: string, v: string)
    ensures forall i :: 0 <= i < |d| && d[i].0 != k ==> Assign(d, k, v)[i] == d[i]
  {
    if d != [] && d[0].0 != k {
      AssignKeepsEntries(d[1..], k, v);
      var r := Assign(d, k, v);
      assert r[1..] == Assign(d[1..], k, v);
      forall i | 0 <= i < |d| && d[i].0 != k
        ensures r[i] == d[i]
      {
        if i > 0 { assert d[1..][i - 1] == d[i]; }
      }
    }
  }

  /** An assignment keeps the keys distinct. */
  lemma AssignDistinct(d: seq<Entry>, k: string, v: string)
    requires DistinctKeys(d)
    ensures DistinctKeys(Assign(d, k, v))
  {
    var r := Assign(d, k, v);
    assert forall i :: 0 <= i < |r| ==> r[i].0 == Keys(r)[i];
    assert forall i :: 0 <= i < |d| ==> d[i].0 == Keys(d)[i];
  }

  /** PHP's `foreach ($entries as $k => $v) $data[$k] = sanitize($v)`: successive
      assignments, in input order. */
  function LoadAll(d: seq<Entry>, entries: seq<Entry>, sanitize: string -> string): (r: seq<Entry>)
  {
    if entries == [] then d
    else
      var last := entries[|entries| - 1];
      Assign(LoadAll(d, entries[..|entries| - 1], sanitize), last.0, sanitize(last.1))
  }

  /** The value of the last entry named `k`, if any. */
  function LastValue(entries: seq<Entry>, k: string): (v: Option<string>)
  {
    if entries == [] then None
    else if entries[|entries| - 1].0 == k then Some(entries[|entries| - 1].1)
    else LastValue(entries[..|entries| - 1], k)
  }

  /** After a bulk load, each key holds the sanitized value of its last occurrence in
      the input; keys the input does not name keep their value. */
  lemma {:induction false} LoadAllLookup(d: seq<Entry>, entries: seq<Entry>, sanitize: string -> string, k: string)
    ensures Lookup(LoadAll(d, entries, sanitize), k) ==
      match LastValue(entries, k)
      case Some(v) => Some(sanitize(v))
      case None => Lookup(d, k)
    decreases |entries|
  {
    if entries != [] {
      var last := entries[|entries| - 1];
      LoadAllLookup(d, entries[..|entries| - 1], sanitize, k);
      AssignLookup(LoadAll(d, entries[..|entries| - 1], sanitize), last.0, sanitize(last.1), k);
    }
  }

  /** A bulk load keeps the keys distinct. */
  lemma {:induction false} LoadAllDistinct(d: seq<Entry>, entries: seq<Entry>, sanitize: string -> string)
    requires DistinctKeys(d)
    ensures DistinctKeys(LoadAll(d, entries, sanitize))
    decreases |entries|
  {
    if entries != [] {
      var last := entries[|entries| - 1];
      LoadAllDistinct(d, entries[..|entries| - 1], sanitize);
      AssignDistinct(LoadAll(d, entries[..|entries| - 1], sanitize), last.0, sanitize(last.1));
    }
  }

  /** A bulk load keeps every existing key at its position. */
  lemma {:induction false} LoadAllKeepsPositions(d: seq<Entry>, entries: seq<Entry>, sanitize: string -> string)
    ensures var ks := Keys(LoadAll(d, entries, sanitize));
      |d| <= |ks| && ks[..|d|] == Keys(d)
    decreases |entries|
  {
    if entries != [] {
      var init := entries[..|entries| - 1];
      var last := entries[|entries| - 1];
      LoadAllKeepsPositions(d, init, sanitize);
      var prev := Keys(LoadAll(d, init, sanitize));
      var ks := Keys(LoadAll(d, entries, sanitize));
      assert ks[..|prev|] == prev;
      assert ks[..|d|] == prev[..|d|];
    }
  }

  /** One assignment adds at most its own key. */
  lemma AssignKeyMembership(d: seq<Entry>, k: string, v: string, t: string)
    ensures t in Keys(Assign(d, k, v)) <==> t in Keys(d) || t == k
  {
    if k !in Keys(d) {
      assert t in Keys(d) + [k] <==> t in Keys(d) || t == k;
    }
  }

  /** A bulk load adds exactly the keys the input names. */
  lemma {:induction false} LoadAllKeyMembership(d: seq<Entry>, entries: seq<Entry>, sanitize: string -> string, k: string)
    ensures k in Keys(LoadAll(d, entries, sanitize)) <==> k in Keys(d) || k in Keys(entries)
    decreases |entries|
  {
    if entries != [] {
      var init := entries[..|entries| - 1];
      var last := entries[|entries| - 1];
      LoadAllKeyMembership(d, init, sanitize, k);
      AssignKeyMembership(LoadAll(d, init, sanitize), last.0, sanitize(last.1), k);
      KeysInitMembership(entries, k);
    }
  }

  /** A key of a non-empty list is a key of all but its last entry, or the last key. */
  lemma KeysInitMembership(entries: seq<Entry>, k: string)
    requires entries != []
    ensures k in Keys(entries)
      <==> k in Keys(entries[..|entries| - 1]) || k == entries[|entries| - 1].0
  {
    var init := entries[..|entries| - 1];
    var last := entries[|entries| - 1];
    assert init + [last] == entries;
    KeysSnoc(init, last);
    assert k in Keys(init) + [last.0] <==> k in Keys(init) || k == last.0;
  }
}
