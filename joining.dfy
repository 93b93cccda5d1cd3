/** Python's `", ".join(parts)`, and `str.split(", ")` as the inverse a reader
    of the joined columns would apply. */
module Joining {

  /** The separator every joined column of the pipeline uses. */
  const Sep: string := ", "

  /** Sum of the lengths of the parts. */
  function TotalLength(parts: seq<string>): nat
  {
    if parts == [] then 0 else |parts[0]| + TotalLength(parts[1..])
  }

  /** `", ".join(parts)`: the parts in order, with `Sep` between neighbours. */
  function Join(parts: seq<string>): string
  {
    if |parts| == 0 then ""
    else if |parts| == 1 then parts[0]
    else parts[0] + Sep + Join(parts[1..])
  }

  /** `s.split(", ")`: cuts at every occurrence of `Sep`, scanning left to right. */
  function Split(s: string): (r: seq<string>)
    ensures |r| >= 1
    decreases |s|
  {
    if |s| == 0 then [""]
    else if |s| >= 2 && s[0] == ',' && s[1] == ' ' then [""] + Split(s[2..])
    else
      var rest := Split(s[1..]);
      [[s[0]] + rest[0]] + rest[1..]
  }

  /** No part contains a comma, so no part can contain the separator. */
  predicate CommaFree(parts: seq<string>)
  {
    forall i :: 0 <= i < |parts| ==> ',' !in parts[i]
  }

  /** The joined string is as long as the parts together plus one separator
      between each pair of neighbours. */
  lemma {:induction false} JoinLength(parts: seq<string>)
    requires parts != []
    ensures |Join(parts)| == TotalLength(parts) + |Sep| * (|parts| - 1)
  {
    if |parts| > 1 {
      JoinLength(parts[1..]);
    }
  }

  /** Appending one part extends the joined string by the separator and that part. */
  lemma {:induction false} JoinAppend(parts: seq<string>, p: string)
    requires parts != []
    ensures Join(parts + [p]) == Join(parts) + Sep + p
  {
    if |parts| == 1 {
      assert parts + [p] == [parts[0], p];
    } else {
      assert (parts + [p])[1..] == parts[1..] + [p];
      JoinAppend(parts[1..], p);
    }
  }

  /** The joined string is empty exactly when there is nothing to join, or the
      only part is itself empty. */
  lemma JoinEmptyIff(parts: seq<string>)
    ensures Join(parts) == "" <==> parts == [] || parts == [""]
  {
    if |parts| == 1 {
      assert parts == [parts[0]];
    } else if |parts| > 1 {
      JoinLength(parts);
    }
  }

  /** A comma-free string splits into itself. */
  lemma {:induction false} SplitCommaFree(a: string)
    requires ',' !in a
    ensures Split(a) == [a]
    decreases |a|
  {
    if |a| > 0 {
      assert ',' !in a[1..];
      SplitCommaFree(a[1..]);
      assert [a[0]] + a[1..] == a;
    }
  }

  /** Splitting a comma-free head followed by the separator yields the head, then
      whatever the rest splits into. */
  lemma {:induction false} SplitHead(a: string, rest: string)
    requires ',' !in a
    ensures Split(a + Sep + rest) == [a] + Split(rest)
    decreases |a|
  {
    var s := a + Sep + rest;
    if |a| == 0 {
      assert s == Sep + rest;
      assert s[2..] == rest;
    } else {
      assert s[0] == a[0] && a[0] != ',';
      assert s[1..] == a[1..] + Sep + rest;
      assert ',' !in a[1..];
      SplitHead(a[1..], rest);
      assert [a[0]] + a[1..] == a;
    }
  }

  /** Joining comma-free parts loses nothing: splitting gives the parts back. */
  lemma {:induction false} SplitJoin(parts: seq<string>)
    requires parts != [] && CommaFree(parts)
    ensures Split(Join(parts)) == parts
  {
    assert ',' !in parts[0];
    if |parts| == 1 {
      SplitCommaFree(parts[0]);
    } else {
      SplitHead(parts[0], Join(parts[1..]));
      SplitJoin(parts[1..]);
    }
  }
}
