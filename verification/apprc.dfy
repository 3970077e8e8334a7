/**
 The `regenerate-apprc` payload: a shell script that rewrites
 /home/application/apprc on a unit with one `export NAME="VALUE"` line per
 environment variable the application exposes to its units.
 */
module Apprc {
  import opened Strings

  /** An environment variable of an application; only public ones reach the units. */
  datatype EnvVar = EnvVar(name: string, value: string, public: bool)

  const ApprcPath: string := "/home/application/apprc"

  /** First line of the script: a here-document into the apprc file. */
  const Heredoc: string := "cat > " + ApprcPath + " <<END"

  /** Start of the second line; the rest of that line (a time stamp) is free. */
  const BannerMarker: string := "# generated by tsuru"

  /** Last line of the script, closing the here-document. */
  const HeredocEnd: string := "END"

  function ExportLine(v: EnvVar): string {
    "export " + v.name + "=" + Quote(v.value)
  }

  /**
   The export lines of the public variables of `env`, in the order `env`
   lists them (the order in which the application's variables are visited).
   */
  function Exports(env: seq<EnvVar>): (r: seq<string>)
    ensures |r| == |PublicIndices(env)|
    ensures forall x :: x in r <==> exists v :: v in env && v.public && x == ExportLine(v)
  {
    if env == [] then
      assert PublicIndices(env) == {};
      []
    else
      var rest := Exports(env[1..]);
      assert env == [env[0]] + env[1..];
      PublicIndicesCons(env);
      if env[0].public then [ExportLine(env[0])] + rest else rest
  }

  /** The positions of the public variables of `env`. */
  function PublicIndices(env: seq<EnvVar>): set<int> {
    set k | 0 <= k < |env| && env[k].public
  }

  function Shift(s: set<int>): set<int> {
    set k | k in s :: k + 1
  }

  /** Shifting the positions of the public variables by one keeps their number. */
  lemma {:induction false} ShiftSize(env: seq<EnvVar>)
    ensures |Shift(PublicIndices(env))| == |PublicIndices(env)|
    decreases |env|
  {
    var n := |env|;
    if n == 0 {
      assert PublicIndices(env) == {};
      assert Shift(PublicIndices(env)) == {};
    } else {
      var front := env[..n - 1];
      ShiftSize(front);
      var last: set<int> := if env[n - 1].public then {n - 1} else {};
      forall k ensures k in PublicIndices(env) <==> k in PublicIndices(front) + last {
        if 0 <= k < n - 1 { assert front[k] == env[k]; }
      }
      var pf := PublicIndices(front);
      assert PublicIndices(env) == pf + last;
      assert Shift(PublicIndices(env)) == Shift(pf) + Shift(last);
      if env[n - 1].public {
        assert n - 1 !in pf;
        assert n !in Shift(pf);
        assert Shift(last) == {n};
        assert |pf + {n - 1}| == |pf| + 1;
        assert |Shift(pf) + {n}| == |Shift(pf)| + 1;
      } else {
        assert Shift(last) == {};
        assert pf + last == pf && Shift(pf) + Shift(last) == Shift(pf);
      }
    }
  }

  lemma PublicIndicesCons(env: seq<EnvVar>)
    requires env != []
    ensures |PublicIndices(env)| == (if env[0].public then 1 else 0) + |PublicIndices(env[1..])|
  {
    var tail := PublicIndices(env[1..]);
    forall k | k in PublicIndices(env) && k != 0 ensures k in Shift(tail) {
      assert env[1..][k - 1] == env[k];
      assert k - 1 in tail;
    }
    forall k | k in Shift(tail) ensures k in PublicIndices(env) {
      assert env[1..][k - 1] == env[k];
    }
    ShiftSize(env[1..]);
    if env[0].public {
      assert PublicIndices(env) == {0} + Shift(tail);
    } else {
      assert PublicIndices(env) == Shift(tail);
    }
  }

  /** The lines of the script for `env`, `stamp` being the free rest of the banner line. */
  function ScriptLines(env: seq<EnvVar>, stamp: string): seq<string> {
    [Heredoc, BannerMarker + stamp] + Exports(env) + [HeredocEnd]
  }

  /** The command sent to every targeted unit. */
  function Script(env: seq<EnvVar>, stamp: string): string {
    Unlines(ScriptLines(env, stamp))
  }

  /** No name or value of `env` and no part of the banner breaks a line. */
  predicate SingleLineEnv(env: seq<EnvVar>, stamp: string) {
    && Free(stamp, '\n')
    && forall k :: 0 <= k < |env| ==> Free(env[k].name, '\n') && Free(env[k].value, '\n')
  }

  /** Reads back the export lines of an apprc script: everything between banner and END. */
  function ParseExports(script: string): seq<string> {
    var ls := Lines(script);
    if |ls| < 3 then [] else ls[2..|ls| - 1]
  }

  lemma ExportsAppend(a: seq<EnvVar>, b: seq<EnvVar>)
    ensures Exports(a + b) == Exports(a) + Exports(b)
  {
    if a == [] {
      assert a + b == b;
    } else {
      assert (a + b)[0] == a[0];
      assert (a + b)[1..] == a[1..] + b;
      ExportsAppend(a[1..], b);
    }
  }

  lemma ExportLineFree(v: EnvVar)
    requires Free(v.name, '\n') && Free(v.value, '\n')
    ensures Free(ExportLine(v), '\n')
  {
    FreeAppend("export ", v.name, '\n');
    FreeAppend("export " + v.name, "=", '\n');
    FreeAppend("\"", v.value, '\n');
    FreeAppend("\"" + v.value, "\"", '\n');
    FreeAppend("export " + v.name + "=", Quote(v.value), '\n');
  }

  lemma {:induction false} ExportsFree(env: seq<EnvVar>, stamp: string)
    requires SingleLineEnv(env, stamp)
    ensures SingleLines(Exports(env))
  {
    if env != [] {
      assert SingleLineEnv(env[1..], stamp) by {
        forall k | 0 <= k < |env[1..]|
          ensures Free(env[1..][k].name, '\n') && Free(env[1..][k].value, '\n')
        {
          assert env[1..][k] == env[k + 1];
        }
      }
      ExportsFree(env[1..], stamp);
      ExportLineFree(env[0]);
    }
  }

  lemma ScriptSingleLines(env: seq<EnvVar>, stamp: string)
    requires SingleLineEnv(env, stamp)
    ensures SingleLines(ScriptLines(env, stamp))
  {
    ExportsFree(env, stamp);
    FreeAppend(BannerMarker, stamp, '\n');
  }

  /** Reading the export lines back from a rendered script gives the exported variables. */
  lemma ParseScript(env: seq<EnvVar>, stamp: string)
    requires SingleLineEnv(env, stamp)
    ensures Lines(Script(env, stamp)) == ScriptLines(env, stamp)
    ensures ParseExports(Script(env, stamp)) == Exports(env)
  {
    ScriptSingleLines(env, stamp);
    LinesUnlines(ScriptLines(env, stamp));
    var ls := ScriptLines(env, stamp);
    assert ls[2..|ls| - 1] == Exports(env);
  }

  /**
   Every public variable gets its export line in the rendered script, and
   every export line there is that of a public variable.
   */
  lemma ScriptExportsPublic(env: seq<EnvVar>, stamp: string)
    requires SingleLineEnv(env, stamp)
    ensures forall v :: v in env && v.public ==> ExportLine(v) in ParseExports(Script(env, stamp))
    ensures forall x :: x in ParseExports(Script(env, stamp)) ==>
              exists v :: v in env && v.public && x == ExportLine(v)
  {
    ParseScript(env, stamp);
  }

  /** The script opens the apprc here-document with the banner and closes it with END. */
  lemma ScriptFrame(env: seq<EnvVar>, stamp: string)
    ensures StartsWith(Script(env, stamp), Heredoc + "\n" + BannerMarker)
    ensures EndsWith(Script(env, stamp), HeredocEnd + "\n")
  {
    var e := Exports(env);
    TerminatedAppend([Heredoc, BannerMarker + stamp] + e, [HeredocEnd], '\n');
    TerminatedAppend([Heredoc, BannerMarker + stamp], e, '\n');
    TerminatedAppend([Heredoc], [BannerMarker + stamp], '\n');
    assert [Heredoc] + [BannerMarker + stamp] == [Heredoc, BannerMarker + stamp];
    TerminatedOne(Heredoc, '\n');
    TerminatedOne(BannerMarker + stamp, '\n');
    TerminatedOne(HeredocEnd, '\n');
    var middle := Terminated(e, '\n');
    var s := Script(env, stamp);
    assert s == (Heredoc + "\n" + BannerMarker) + (stamp + "\n" + middle + HeredocEnd + "\n");
    assert s == (Heredoc + "\n" + (BannerMarker + stamp) + "\n" + middle) + (HeredocEnd + "\n");
  }

  /** Variable names are keys: no two variables of `env` share one. */
  predicate UniqueEnvNames(env: seq<EnvVar>) {
    forall i, j :: 0 <= i < j < |env| ==> env[i].name != env[j].name
  }

  /** No variable name contains `=`, which ends the name in an export line. */
  predicate PlainNames(env: seq<EnvVar>) {
    forall k :: 0 <= k < |env| ==> Free(env[k].name, '=')
  }

  /** An export line determines the name of the variable it exports. */
  lemma ExportLineName(v: EnvVar, w: EnvVar)
    requires Free(v.name, '=') && Free(w.name, '=')
    requires ExportLine(v) == ExportLine(w)
    ensures v.name == w.name
  {
    FreeAppend("export ", v.name, '=');
    FreeAppend("export ", w.name, '=');
    IndexOfAfterFree("export " + v.name, '=', Quote(v.value));
    IndexOfAfterFree("export " + w.name, '=', Quote(w.value));
    assert ExportLine(v) == "export " + v.name + ['='] + Quote(v.value);
    assert ExportLine(w) == "export " + w.name + ['='] + Quote(w.value);
    assert ExportLine(v)[7..7 + |v.name|] == v.name;
    assert ExportLine(w)[7..7 + |w.name|] == w.name;
  }

  /**
   With names as keys, a public variable's export line occurs exactly once
   among the export lines, and a non-public variable's not at all.
   */
  lemma {:induction false} ExportsOnce(env: seq<EnvVar>, v: EnvVar)
    requires UniqueEnvNames(env) && PlainNames(env)
    requires v in env
    ensures multiset(Exports(env))[ExportLine(v)] == if v.public then 1 else 0
  {
    var tail := env[1..];
    var x := ExportLine(v);
    assert UniqueEnvNames(tail) && PlainNames(tail) by {
      forall i, j | 0 <= i < j < |tail| ensures tail[i].name != tail[j].name {
        assert tail[i] == env[i + 1] && tail[j] == env[j + 1];
      }
      forall k | 0 <= k < |tail| ensures Free(tail[k].name, '=') {
        assert tail[k] == env[k + 1];
      }
    }
    assert Exports(env) == (if env[0].public then [ExportLine(env[0])] else []) + Exports(tail);
    if env[0] == v {
      if x in Exports(tail) {
        var w :| w in tail && w.public && x == ExportLine(w);
        var j :| 0 <= j < |tail| && tail[j] == w;
        assert env[j + 1] == w;
        ExportLineName(v, w);
        assert false;
      }
    } else {
      var i :| 0 <= i < |env| && env[i] == v;
      assert tail[i - 1] == v;
      ExportsOnce(tail, v);
      if env[0].public && ExportLine(env[0]) == x {
        ExportLineName(env[0], v);
        assert false;
      }
    }
  }

  /**
   In a rendered script each public variable has its export line exactly
   once, and a variable that is not public has none.
   */
  lemma ScriptExportsOnce(env: seq<EnvVar>, stamp: string, v: EnvVar)
    requires SingleLineEnv(env, stamp) && UniqueEnvNames(env) && PlainNames(env)
    requires v in env
    ensures multiset(ParseExports(Script(env, stamp)))[ExportLine(v)] == if v.public then 1 else 0
  {
    ParseScript(env, stamp);
    ExportsOnce(env, v);
  }

  lemma MultisetRemoveFirst<T>(e1: seq<T>, e2: seq<T>, k: int)
    requires multiset(e1) == multiset(e2)
    requires e1 != [] && 0 <= k < |e2| && e2[k] == e1[0]
    ensures multiset(e1[1..]) == multiset(e2[..k] + e2[k + 1..])
  {
    var x, a, b := e1[0], e2[..k], e2[k + 1..];
    assert e1 == [x] + e1[1..];
    assert e2 == a + [x] + b;
    calc {
      multiset(e1[1..]);
      multiset(e1) - multiset{x};
      multiset(e2) - multiset{x};
      multiset(a) + multiset(b);
      multiset(a + b);
    }
  }

  lemma ExportsRemoveOne(a: seq<EnvVar>, x: EnvVar, b: seq<EnvVar>)
    ensures multiset(Exports(a + [x] + b)) == multiset(Exports([x])) + multiset(Exports(a + b))
  {
    ExportsAppend(a + [x], b);
    ExportsAppend(a, [x]);
    ExportsAppend(a, b);
  }

  /**
   Visiting the variables in another order changes at most the order of the
   export lines: the rendered scripts carry the same lines, as many times each.
   */
  lemma {:induction false} ExportsPermutation(e1: seq<EnvVar>, e2: seq<EnvVar>)
    requires multiset(e1) == multiset(e2)
    ensures multiset(Exports(e1)) == multiset(Exports(e2))
    decreases |e1|
  {
    if e1 == [] {
      assert |e2| == |multiset(e2)| == 0;
    } else {
      var x := e1[0];
      assert x in multiset(e2);
      var k :| 0 <= k < |e2| && e2[k] == x;
      var a, b := e2[..k], e2[k + 1..];
      assert e2 == a + [x] + b;
      assert e1 == [] + [x] + e1[1..];
      MultisetRemoveFirst(e1, e2, k);
      ExportsPermutation(e1[1..], a + b);
      ExportsRemoveOne(a, x, b);
      ExportsRemoveOne([], x, e1[1..]);
    }
  }

  /**
   Regenerating the apprc of an unchanged application, at another time and
   with its variables visited in another order, writes the same export lines.
   */
  lemma RegenerateOrderIndependent(e1: seq<EnvVar>, e2: seq<EnvVar>, s1: string, s2: string)
    requires multiset(e1) == multiset(e2)
    requires SingleLineEnv(e1, s1) && SingleLineEnv(e2, s2)
    ensures multiset(ParseExports(Script(e1, s1))) == multiset(ParseExports(Script(e2, s2)))
  {
    ParseScript(e1, s1);
    ParseScript(e2, s2);
    ExportsPermutation(e1, e2);
  }
}
