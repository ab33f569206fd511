/** PHP's `explode` with a one-character delimiter, and its inverse `implode`. */
module Strings {

  /** The segments of `s` between occurrences of `sep`, as PHP's `explode(sep, s)`
      returns them: every occurrence splits, and there is always at least one segment
      (the empty string gives `[""]`). */
  function Explode(sep: char, s: string): (parts: seq<string>)
    ensures |parts| >= 1
    ensures |parts| == 1 <==> sep !in s
    decreases |s|
  {
    if s == [] then [""]
    else
      var rest := Explode(sep, s[1..]);
      if s[0] == sep then [""] + rest
      else [[s[0]] + rest[0]] + rest[1..]
  }

  /** PHP's `implode(sep, parts)`. */
  function Join(sep: char, parts: seq<string>): (s: string)
  {
    if parts == [] then ""
    else if |parts| == 1 then parts[0]
    else parts[0] + [sep] + Join(sep, parts[1..])
  }

  /** Joining in front of a non-empty list of segments puts one delimiter between. */
  lemma JoinCons(sep: char, a: string, rest: seq<string>)
    requires |rest| >= 1
    ensures Join(sep, [a] + rest) == a + [sep] + Join(sep, rest)
  {
    assert ([a] + rest)[1..] == rest;
  }

  /** Prefixing the first segment prefixes the joined string. */
  lemma PrefixFirstSegment(sep: char, c: string, rest: seq<string>)
    requires |rest| >= 1
    ensures Join(sep, [c + rest[0]] + rest[1..]) == c + Join(sep, rest)
  {
    if |rest| > 1 {
      JoinCons(sep, c + rest[0], rest[1..]);
      JoinCons(sep, rest[0], rest[1..]);
      assert [rest[0]] + rest[1..] == rest;
    } else {
      assert [c + rest[0]] + rest[1..] == [c + rest[0]];
    }
  }

  /** Joining the segments back with the delimiter gives the original string. */
  lemma {:induction false} JoinExplode(sep: char, s: string)
    ensures Join(sep, Explode(sep, s)) == s
    decreases |s|
  {
    if s != [] {
      var rest := Explode(sep, s[1..]);
      JoinExplode(sep, s[1..]);
      if s[0] == sep {
        JoinCons(sep, "", rest);
      } else {
        PrefixFirstSegment(sep, [s[0]], rest);
      }
      assert [s[0]] + s[1..] == s;
    }
  }

  /** No segment contains the delimiter. */
  lemma {:induction false} ExplodeSegmentsFree(sep: char, s: string)
    ensures forall i :: 0 <= i < |Explode(sep, s)| ==> sep !in Explode(sep, s)[i]
    decreases |s|
  {
    if s != [] {
      ExplodeSegmentsFree(sep, s[1..]);
    }
  }

  /** Splitting at the first delimiter: segment 0 is the text before it, and the
      remaining segments are those of the text after it. */
  lemma {:induction false} ExplodeAtFirst(sep: char, s: string, i: nat)
    requires i < |s| && s[i] == sep && sep !in s[..i]
    ensures Explode(sep, s) == [s[..i]] + Explode(sep, s[i + 1..])
    decreases i
  {
    if i > 0 {
      assert s[0] == s[..i][0];
      assert s[1..][..i - 1] == s[1..i];
      assert s[1..][i..] == s[i + 1..];
      assert sep !in s[1..][..i - 1] by { assert s[1..][..i - 1] == s[..i][1..]; }
      ExplodeAtFirst(sep, s[1..], i - 1);
      assert [s[0]] + s[1..i] == s[..i];
    }
  }

  /** Splitting a string that holds no delimiter gives that string alone. */
  lemma {:induction false} ExplodeNoSeparator(sep: char, s: string)
    requires sep !in s
    ensures Explode(sep, s) == [s]
  {
    // the length clause of Explode's contract gives a single segment, and joining
    // a single segment is that segment
    JoinExplode(sep, s);
  }

  /** Splitting the join of delimiter-free segments gives the segments back. */
  lemma {:induction false} ExplodeJoin(sep: char, parts: seq<string>)
    requires |parts| >= 1
    requires forall i :: 0 <= i < |parts| ==> sep !in parts[i]
    ensures Explode(sep, Join(sep, parts)) == parts
    decreases |parts|
  {
    if |parts| == 1 {
      ExplodeNoSeparator(sep, parts[0]);
    } else {
      var s := Join(sep, parts);
      var i := |parts[0]|;
      assert s == parts[0] + [sep] + Join(sep, parts[1..]);
      assert s[..i] == parts[0];
      assert s[i] == sep;
      assert s[i + 1..] == Join(sep, parts[1..]);
      ExplodeAtFirst(sep, s, i);
      ExplodeJoin(sep, parts[1..]);
      assert [parts[0]] + parts[1..] == parts;
    }
  }
}
