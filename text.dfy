/** String helpers with the meaning JavaScript's string methods give them. */
module Text {

  /** `p` occurs in `s` starting at position `i`. */
  predicate StartsWithAt(s: string, i: nat, p: string) {
    i + |p| <= |s| && s[i..i + |p|] == p
  }

  /** The first position at or after `from` holding one of `stops`, or `|s|` when there is none. */
  function FindFirst(s: string, from: nat, stops: set<char>): (k: nat)
    requires from <= |s|
    ensures from <= k <= |s|
    ensures k < |s| ==> s[k] in stops
    ensures forall j :: from <= j < k ==> s[j] !in stops
    decreases |s| - from
  {
    if from == |s| || s[from] in stops then from else FindFirst(s, from + 1, stops)
  }

  /** A position that holds a stop, or the end, with no stop before it from `from`, is the first one. */
  lemma FindFirstAt(s: string, from: nat, stops: set<char>, k: nat)
    requires from <= k <= |s|
    requires forall j :: from <= j < k ==> s[j] !in stops
    requires k == |s| || s[k] in stops
    ensures FindFirst(s, from, stops) == k
  {
  }


  /** `Array.prototype.join`: the parts with one `sep` between neighbours. */
  function Join(parts: seq<string>, sep: char): string
  {
    if |parts| == 0 then ""
    else if |parts| == 1 then parts[0]
    else parts[0] + [sep] + Join(parts[1..], sep)
  }

  /** `String.prototype.split` on one character: the pieces between separators, at least one. */
  function Split(s: string, sep: char): (parts: seq<string>)
    ensures |parts| >= 1
    ensures forall k :: 0 <= k < |parts| ==> sep !in parts[k]
    decreases |s|
  {
    var k := FindFirst(s, 0, {sep});
    if k == |s| then [s] else [s[..k]] + Split(s[k + 1..], sep)
  }

  /** Splitting a join gives the parts back when no part holds the separator. */
  lemma {:induction false} SplitJoin(parts: seq<string>, sep: char)
    requires |parts| >= 1
    requires forall k :: 0 <= k < |parts| ==> sep !in parts[k]
    ensures Split(Join(parts, sep), sep) == parts
  {
    var s := Join(parts, sep);
    var p := parts[0];
    if |parts| == 1 {
      assert forall j :: 0 <= j < |s| ==> s[j] != sep;
    } else {
      var rest := Join(parts[1..], sep);
      assert s == p + [sep] + rest;
      assert forall j :: 0 <= j < |p| ==> s[j] == p[j] && s[j] != sep;
      assert s[|p|] == sep;
      var k := FindFirst(s, 0, {sep});
      assert k == |p|;
      assert s[..k] == p;
      assert s[k + 1..] == rest;
      SplitJoin(parts[1..], sep);
    }
  }
}
