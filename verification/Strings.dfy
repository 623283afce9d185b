/** Splitting and joining of strings at one separator character. */
module Strings {
  import opened Basics

  /** strings.Split for a one-character separator. */
  function Split(s: string, c: char): (r: seq<string>)
    ensures r != []
    ensures forall p :: p in r ==> c !in p
    decreases |s|
  {
    var i := IndexOf(s, c);
    if i == |s| then [s] else [s[..i]] + Split(s[i + 1..], c)
  }

  /** strings.Join for a one-character separator. */
  function Join(parts: seq<string>, c: char): string {
    if parts == [] then ""
    else if |parts| == 1 then parts[0]
    else parts[0] + [c] + Join(parts[1..], c)
  }

  lemma {:induction false} SplitJoin(parts: seq<string>, c: char)
    requires parts != [] && forall p :: p in parts ==> c !in p
    ensures Split(Join(parts, c), c) == parts
    decreases |parts|
  {
    var s := Join(parts, c);
    assert parts[0] in parts;
    if |parts| > 1 {
      var n := |parts[0]|;
      assert s[..n] == parts[0] && forall j :: 0 <= j < n ==> s[j] == parts[0][j];
      assert s[n] == c;
      assert IndexOf(s, c) == n;
      assert s[..n] == parts[0] && s[n + 1..] == Join(parts[1..], c);
      SplitJoin(parts[1..], c);
    }
  }

  /** strings.Trim for a one-character cutset. */
  function Trim(s: string, c: char): string
    decreases |s|
  {
    if s == [] then s
    else if s[0] == c then Trim(s[1..], c)
    else if s[|s| - 1] == c then Trim(s[..|s| - 1], c)
    else s
  }

  /** The labels or segments of a trimmed string: none when nothing is left. */
  function Segments(s: string, c: char): seq<string> {
    if Trim(s, c) == "" then [] else Split(Trim(s, c), c)
  }
}
