/**
 Units of an application: the readiness predicate `UnitList.Started` and the
 selection of the units an action is aimed at (the optional unit-name filter
 carried in a message after the application name).
 */
module Units {

  /** The state string a unit or an application reports once it runs. */
  const StatusStarted: string := "started"

  /** A unit reads as a name and a free-form state string ("started", "pending", "blabla", ...). */
  datatype Unit = Unit(name: string, state: string)

  /** True iff every unit reports "started"; an empty list holds vacuously. */
  function Started(units: seq<Unit>): (r: bool)
    ensures r <==> forall k :: 0 <= k < |units| ==> units[k].state == StatusStarted
  {
    if units == [] then true
    else units[0].state == StatusStarted && Started(units[1..])
  }

  /** One unit that is not "started" is enough to make the list not started. */
  lemma NotStartedWitness(units: seq<Unit>, k: int)
    requires 0 <= k < |units| && units[k].state != StatusStarted
    ensures !Started(units)
  {
  }

  /** Unit names are unique within their application. */
  predicate UniqueNames(units: seq<Unit>) {
    forall i, j :: 0 <= i < j < |units| ==> units[i].name != units[j].name
  }

  /** The names of `units`. */
  function Names(units: seq<Unit>): set<string> {
    set k | 0 <= k < |units| :: units[k].name
  }

  /** `xs` can be obtained from `ys` by deleting elements. */
  ghost predicate Subsequence<T>(xs: seq<T>, ys: seq<T>)
    decreases |ys|
  {
    xs == []
    || (ys != []
        && ((xs[0] == ys[0] && Subsequence(xs[1..], ys[1..])) || Subsequence(xs, ys[1..])))
  }

  /** Whether a unit is aimed at by a filter; an empty filter aims at every unit. */
  predicate Selected(u: Unit, filter: seq<string>) {
    filter == [] || u.name in filter
  }

  /**
   The units an action runs on: those whose name the filter mentions, in
   their stored order; names in the filter that match no unit are ignored.
   */
  function Targets(units: seq<Unit>, filter: seq<string>): (r: seq<Unit>)
    ensures forall u :: u in r <==> u in units && Selected(u, filter)
    ensures Subsequence(r, units)
    ensures filter == [] ==> r == units
  {
    if units == [] then []
    else
      var rest := Targets(units[1..], filter);
      assert units == [units[0]] + units[1..];
      if Selected(units[0], filter) then
        assert ([units[0]] + rest)[1..] == rest;
        [units[0]] + rest
      else rest
  }

  lemma TargetsNoneSelected(units: seq<Unit>, filter: seq<string>)
    requires forall u :: u in units ==> !Selected(u, filter)
    ensures Targets(units, filter) == []
  {
  }

  /** A filter naming one unit of a list with unique names selects exactly that unit. */
  lemma {:induction false} TargetsOneName(units: seq<Unit>, k: int)
    requires UniqueNames(units)
    requires 0 <= k < |units|
    ensures Targets(units, [units[k].name]) == [units[k]]
  {
    var n := units[k].name;
    assert UniqueNames(units[1..]) by {
      forall i, j | 0 <= i < j < |units[1..]| ensures units[1..][i].name != units[1..][j].name {
        assert units[1..][i] == units[i + 1] && units[1..][j] == units[j + 1];
      }
    }
    if k == 0 {
      assert forall u :: u in units[1..] ==> u.name != n by {
        forall u | u in units[1..] ensures u.name != n {
          var j :| 0 <= j < |units[1..]| && units[1..][j] == u;
          assert units[j + 1] == u;
        }
      }
      TargetsNoneSelected(units[1..], [n]);
      assert Selected(units[0], [n]);
    } else {
      assert units[0].name != n;
      assert units[1..][k - 1] == units[k];
      TargetsOneName(units[1..], k - 1);
    }
  }

  lemma UniqueNamesTail(units: seq<Unit>)
    requires UniqueNames(units) && units != []
    ensures UniqueNames(units[1..])
    ensures units[0].name !in Names(units[1..])
  {
    var tail := units[1..];
    forall i, j | 0 <= i < j < |tail| ensures tail[i].name != tail[j].name {
      assert tail[i] == units[i + 1] && tail[j] == units[j + 1];
    }
    forall k | 0 <= k < |tail| ensures tail[k].name != units[0].name {
      assert tail[k] == units[k + 1];
    }
  }

  lemma NamesCons(units: seq<Unit>)
    requires units != []
    ensures Names(units) == {units[0].name} + Names(units[1..])
  {
    var tail := units[1..];
    forall x | x in Names(units) ensures x in {units[0].name} + Names(tail) {
      var k :| 0 <= k < |units| && units[k].name == x;
      if k > 0 { assert tail[k - 1] == units[k]; }
    }
    forall x | x in Names(tail) ensures x in Names(units) {
      var k :| 0 <= k < |tail| && tail[k].name == x;
      assert units[k + 1] == tail[k];
    }
  }

  /**
   With unique unit names the number of targets is the number of distinct
   filter names that name a unit of the list.
   */
  lemma {:induction false} TargetsCount(units: seq<Unit>, filter: seq<string>)
    requires UniqueNames(units)
    requires filter != []
    ensures |Targets(units, filter)| == |Names(units) * set n | n in filter|
  {
    var f := set n | n in filter;
    if units == [] {
      assert Names(units) == {};
    } else {
      var u := units[0];
      var tail := units[1..];
      UniqueNamesTail(units);
      NamesCons(units);
      TargetsCount(tail, filter);
      if u.name in filter {
        assert Names(units) * f == {u.name} + (Names(tail) * f);
        assert |Targets(units, filter)| == 1 + |Targets(tail, filter)|;
      } else {
        assert Names(units) * f == Names(tail) * f;
      }
    }
  }
}
