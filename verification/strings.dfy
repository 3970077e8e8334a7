/**
 Text helpers shared by the dispatcher model: splitting a text into lines,
 writing lines out, the newline flattening the collector's tests apply before
 matching a command, and the double-quoting used in log lines.
 */
module Strings {

  /** True iff `c` does not occur in `s`. */
  predicate Free(s: string, c: char) {
    forall k :: 0 <= k < |s| ==> s[k] != c
  }

  /** Index of the first occurrence of `c` in `s`, or `|s|` when there is none. */
  function IndexOf(s: string, c: char): (i: nat)
    ensures i <= |s|
    ensures Free(s[..i], c)
    ensures i < |s| ==> s[i] == c
  {
    if s == [] || s[0] == c then 0
    else
      var j := IndexOf(s[1..], c);
      assert s[1..][..j] == s[1..j + 1];
      1 + j
  }

  /** The index of `c` in `a + [c] + b` is `|a|` when `a` does not contain it. */
  lemma IndexOfAfterFree(a: string, c: char, b: string)
    requires Free(a, c)
    ensures IndexOf(a + [c] + b, c) == |a|
  {
    var s := a + [c] + b;
    assert s[|a|] == c;
    var i := IndexOf(s, c);
    assert forall k :: 0 <= k < |a| ==> s[k] == a[k];
  }

  /** Every element of `ls` followed by `sep`, all concatenated. */
  function Terminated(ls: seq<string>, sep: char): string
  {
    if ls == [] then [] else ls[0] + [sep] + Terminated(ls[1..], sep)
  }

  /** A script written out line by line, each line ending in a newline. */
  function Unlines(ls: seq<string>): string {
    Terminated(ls, '\n')
  }

  /** True iff no line of `ls` contains a newline of its own. */
  predicate SingleLines(ls: seq<string>) {
    forall l :: l in ls ==> Free(l, '\n')
  }

  lemma FreeAppend(a: string, b: string, c: char)
    requires Free(a, c) && Free(b, c)
    ensures Free(a + b, c)
  {
    forall k | 0 <= k < |a + b| ensures (a + b)[k] != c {
      if k >= |a| { assert (a + b)[k] == b[k - |a|]; }
    }
  }

  lemma TerminatedAppend(a: seq<string>, b: seq<string>, sep: char)
    ensures Terminated(a + b, sep) == Terminated(a, sep) + Terminated(b, sep)
  {
    if a == [] {
      assert a + b == b;
    } else {
      assert (a + b)[0] == a[0];
      assert (a + b)[1..] == a[1..] + b;
      TerminatedAppend(a[1..], b, sep);
    }
  }

  lemma TerminatedOne(l: string, sep: char)
    ensures Terminated([l], sep) == l + [sep]
  {
    assert [l][1..] == [];
  }

  /** The newline-separated lines of `s`; a last fragment without a newline is a line too. */
  function Lines(s: string): seq<string>
    decreases |s|
  {
    if s == [] then []
    else
      var i := IndexOf(s, '\n');
      if i == |s| then [s] else [s[..i]] + Lines(s[i + 1..])
  }

  lemma LinesCons(l: string, rest: string)
    requires Free(l, '\n')
    ensures Lines(l + "\n" + rest) == [l] + Lines(rest)
  {
    var s := l + "\n" + rest;
    IndexOfAfterFree(l, '\n', rest);
    assert s[..|l|] == l;
    assert s[|l| + 1..] == rest;
  }

  /** Splitting the written-out lines gives back the lines. */
  lemma {:induction false} LinesUnlines(ls: seq<string>)
    requires SingleLines(ls)
    ensures Lines(Unlines(ls)) == ls
  {
    if ls != [] {
      assert ls[0] in ls;
      LinesCons(ls[0], Unlines(ls[1..]));
      LinesUnlines(ls[1..]);
    }
  }

  /** `s` with every newline replaced by a space. */
  function Flatten(s: string): (r: string)
    ensures |r| == |s|
    ensures forall k :: 0 <= k < |s| && s[k] != '\n' ==> r[k] == s[k]
    ensures Free(r, '\n')
  {
    if s == [] then []
    else [if s[0] == '\n' then ' ' else s[0]] + Flatten(s[1..])
  }

  lemma FlattenAppend(a: string, b: string)
    ensures Flatten(a + b) == Flatten(a) + Flatten(b)
  {
    if a != [] {
      var h := [if a[0] == '\n' then ' ' else a[0]];
      assert (a + b)[0] == a[0];
      assert (a + b)[1..] == a[1..] + b;
      assert Flatten(a + b) == h + Flatten(a[1..] + b);
      FlattenAppend(a[1..], b);
      assert Flatten(a) == h + Flatten(a[1..]);
    } else {
      assert a + b == b;
    }
  }

  lemma FlattenFree(s: string)
    requires Free(s, '\n')
    ensures Flatten(s) == s
  {
    if s != [] {
      FlattenFree(s[1..]);
    }
  }

  /** Flattening written-out lines puts a single space after each of them. */
  lemma {:induction false} FlattenUnlines(ls: seq<string>)
    requires SingleLines(ls)
    ensures Flatten(Unlines(ls)) == Terminated(ls, ' ')
  {
    if ls != [] {
      assert ls[0] in ls;
      FlattenUnlines(ls[1..]);
      FlattenAppend(ls[0] + "\n", Unlines(ls[1..]));
      FlattenAppend(ls[0], "\n");
      FlattenFree(ls[0]);
    }
  }

  /** `s` wrapped in double quotes, as the log lines show action, app and state names. */
  function Quote(s: string): string {
    "\"" + s + "\""
  }

  /** True iff `s` begins with `p`. */
  predicate StartsWith(s: string, p: string) {
    |p| <= |s| && s[..|p|] == p
  }

  /** True iff `s` ends with `p`. */
  predicate EndsWith(s: string, p: string) {
    |p| <= |s| && s[|s| - |p|..] == p
  }

  /** The shape `^prefix.*suffix$` of a regular expression match. */
  predicate MatchesAround(s: string, prefix: string, suffix: string) {
    |prefix| + |suffix| <= |s| && StartsWith(s, prefix) && EndsWith(s, suffix)
  }

  lemma MatchesAroundConcat(prefix: string, middle: string, suffix: string)
    ensures MatchesAround(prefix + middle + suffix, prefix, suffix)
  {
    var s := prefix + middle + suffix;
    assert s[..|prefix|] == prefix;
    assert s[|s| - |suffix|..] == suffix;
  }
}
