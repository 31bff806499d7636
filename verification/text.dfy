/** JavaScript's `String.prototype.split` with a one-character separator, and
    its inverse, joining the pieces back with that separator. */
module Text {

  /** The position of the first occurrence of `c` in `s`. */
  function IndexOf(s: string, c: char): (i: nat)
    requires c in s
    ensures i < |s| && s[i] == c && c !in s[..i]
  {
    if s[0] == c then 0
    else
      var j := IndexOf(s[1..], c);
      assert s[..j + 1] == [s[0]] + s[1..][..j];
      j + 1
  }

  /** The pieces with one separator between each two consecutive pieces. */
  function Join(parts: seq<string>, c: char): string
    requires |parts| >= 1
  {
    if |parts| == 1 then parts[0] else parts[0] + [c] + Join(parts[1..], c)
  }

  /** `s.split(c)`: the separator-free stretches of `s`, in order, one more
      than there are separators (so `"".split(c)` is `[""]`). */
  function Split(s: string, c: char): (parts: seq<string>)
    ensures |parts| >= 1
    ensures forall k :: 0 <= k < |parts| ==> c !in parts[k]
    ensures Join(parts, c) == s
    decreases |s|
  {
    if c in s then
      var i := IndexOf(s, c);
      var rest := Split(s[i + 1..], c);
      assert ([s[..i]] + rest)[1..] == rest;
      assert s == s[..i] + [c] + s[i + 1..];
      [s[..i]] + rest
    else
      [s]
  }

  /** A separator-free first piece is split off at the first separator. */
  lemma SplitAtFirst(a: string, c: char, t: string)
    requires c !in a
    ensures Split(a + [c] + t, c) == [a] + Split(t, c)
  {
    var s := a + [c] + t;
    assert s[|a|] == c;
    var i := IndexOf(s, c);
    assert s[..i] == a;
    assert s[i + 1..] == t;
  }

  /** Splitting the join of separator-free pieces gives the pieces back. */
  lemma {:induction false} SplitJoin(parts: seq<string>, c: char)
    requires |parts| >= 1
    requires forall k :: 0 <= k < |parts| ==> c !in parts[k]
    ensures Split(Join(parts, c), c) == parts
  {
    if |parts| > 1 {
      SplitJoin(parts[1..], c);
      SplitAtFirst(parts[0], c, Join(parts[1..], c));
      assert parts == [parts[0]] + parts[1..];
    }
  }

  /** A string that starts with two separator-free pieces, followed by nothing or
      by a separator, splits into those two pieces first. */
  lemma SplitFirstTwo(a: string, b: string, t: string, c: char)
    requires c !in a && c !in b
    requires t == [] || t[0] == c
    ensures |Split(a + [c] + b + t, c)| >= 2
    ensures Split(a + [c] + b + t, c)[0] == a && Split(a + [c] + b + t, c)[1] == b
  {
    var bt := b + t;
    assert a + [c] + b + t == a + [c] + bt;
    SplitAtFirst(a, c, bt);
    SplitStartsWith(b, t, c);
  }

  /** A separator-free piece followed by nothing or by a separator is the first
      piece of the split. */
  lemma SplitStartsWith(b: string, t: string, c: char)
    requires c !in b
    requires t == [] || t[0] == c
    ensures Split(b + t, c)[0] == b
  {
    if t == [] {
      assert b + t == b;
    } else {
      assert b + t == b + [c] + t[1..];
      SplitAtFirst(b, c, t[1..]);
    }
  }

  /** Conversely, a string with at least two pieces is its first two pieces with
      a separator between them, followed by nothing or by a separator. */
  lemma FirstTwoOfSplit(s: string, c: char) returns (t: string)
    requires |Split(s, c)| >= 2
    ensures s == Split(s, c)[0] + [c] + Split(s, c)[1] + t
    ensures t == [] || t[0] == c
  {
    var parts := Split(s, c);
    assert parts[1..][0] == parts[1];
    if |parts| == 2 {
      t := [];
    } else {
      assert parts[1..][1..] == parts[2..];
      t := [c] + Join(parts[2..], c);
    }
  }
}
