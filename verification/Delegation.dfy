/**
 * packages/config/src/validate.ts: the search for delegation cycles inside `referentialMessages`.
 */
module Delegation {
  /** The configured roles and, in order, whom each delegates to; a target need not be configured. */
  type Graph = map<string, seq<string>>

  function Roles(path: seq<string>): set<string> {
    set r | r in path
  }

  ghost predicate Distinct(path: seq<string>) {
    forall i, j :: 0 <= i < j < |path| ==> path[i] != path[j]
  }

  predicate Edge(g: Graph, from: string, to: string) {
    from in g && to in g[from]
  }

  ghost predicate Chain(g: Graph, path: seq<string>) {
    forall i :: 0 <= i < |path| - 1 ==> Edge(g, path[i], path[i + 1])
  }

  /** The roles of `cycle` in the order they delegate, the last back to the first: distinct and all configured. */
  ghost predicate Elementary(g: Graph, cycle: seq<string>) {
    && cycle != [] && Distinct(cycle) && Chain(g, cycle)
    && Edge(g, cycle[|cycle| - 1], cycle[0])
    && forall r :: r in cycle ==> r in g
  }

  /** A walk of one step or more from a configured role back to itself. */
  ghost predicate ClosedWalk(g: Graph, walk: seq<string>) {
    |walk| >= 2 && Chain(g, walk) && walk[0] == walk[|walk| - 1]
  }

  function IndexOf(path: seq<string>, role: string): (i: nat)
    ensures i <= |path| && (i < |path| ==> path[i] == role)
    ensures i == |path| ==> role !in path
  {
    if path == [] || path[0] == role then 0 else 1 + IndexOf(path[1..], role)
  }

  /** Every cycle met from `role` at the end of `path`, each as the path sliced from the first repetition. */
  function Visit(g: Graph, role: string, path: seq<string>): seq<seq<string>>
    decreases g.Keys - Roles(path), 0
  {
    var at := IndexOf(path, role);
    if at < |path| then [path[at..] + [role]]
    else if role !in g then []
    else
      assert role in g.Keys - Roles(path) && role in Roles(path + [role]);
      VisitEach(g, g[role], path + [role])
  }

  function VisitEach(g: Graph, targets: seq<string>, path: seq<string>): seq<seq<string>>
    decreases g.Keys - Roles(path), |targets|
  {
    if targets == [] then [] else Visit(g, targets[0], path) + VisitEach(g, targets[1..], path)
  }

  /** The whole search: every role visited from an empty path, in the configured order. */
  function Search(g: Graph, order: seq<string>): seq<seq<string>> {
    VisitEach(g, order, [])
  }

  // ---- what the search meets ---------------------------------------------------------------

  ghost predicate Walked(g: Graph, path: seq<string>) {
    Distinct(path) && Chain(g, path) && forall r :: r in path ==> r in g
  }

  ghost predicate AllReal(g: Graph, found: seq<seq<string>>) {
    forall c :: c in found ==> ClosedWalk(g, c) && Elementary(g, c[..|c| - 1])
  }

  /** A walked path cut from a role its end delegates to is an elementary cycle. */
  lemma {:induction false} SliceIsReal(g: Graph, path: seq<string>, at: nat)
    requires Walked(g, path) && at < |path| && Edge(g, path[|path| - 1], path[at])
    ensures var c := path[at..] + [path[at]];
            ClosedWalk(g, c) && Elementary(g, c[..|c| - 1])
  {
    var slice := path[at..];
    var c := slice + [path[at]];
    assert c[..|c| - 1] == slice;
    assert forall i :: 0 <= i < |slice| ==> slice[i] == path[at + i];
    forall i | 0 <= i < |c| - 1 ensures Edge(g, c[i], c[i + 1]) {
      assert i < |slice| - 1 ==> Edge(g, path[at + i], path[at + i + 1]);
    }
    assert forall r :: r in slice ==> r in path;
  }

  lemma {:induction false} LongerWalk(g: Graph, path: seq<string>, role: string)
    requires Walked(g, path) && role in g && role !in path && (path != [] ==> Edge(g, path[|path| - 1], role))
    ensures Walked(g, path + [role])
  {
    forall i, j | 0 <= i < j < |path + [role]| ensures (path + [role])[i] != (path + [role])[j] {
      assert path[i] in path;
    }
  }

  lemma {:induction false} VisitFindsReal(g: Graph, role: string, path: seq<string>)
    requires Walked(g, path) && (path != [] ==> Edge(g, path[|path| - 1], role))
    ensures AllReal(g, Visit(g, role, path))
    decreases g.Keys - Roles(path), 0
  {
    var at := IndexOf(path, role);
    if at < |path| {
      SliceIsReal(g, path, at);
    } else if role in g {
      assert role in g.Keys - Roles(path) && role in Roles(path + [role]);
      LongerWalk(g, path, role);
      VisitEachFindsReal(g, g[role], path + [role]);
    }
  }

  lemma {:induction false} VisitEachFindsReal(g: Graph, targets: seq<string>, path: seq<string>)
    requires Walked(g, path) && (path != [] ==> forall t :: t in targets ==> Edge(g, path[|path| - 1], t))
    ensures AllReal(g, VisitEach(g, targets, path))
    decreases g.Keys - Roles(path), |targets|
  {
    if targets != [] {
      assert targets[0] in targets;
      assert forall t :: t in targets[1..] ==> t in targets;
      VisitFindsReal(g, targets[0], path);
      VisitEachFindsReal(g, targets[1..], path);
    }
  }

  lemma {:induction false} VisitEachHasEach(g: Graph, targets: seq<string>, path: seq<string>, i: nat,
      cycle: seq<string>)
    requires i < |targets| && cycle in Visit(g, targets[i], path)
    ensures cycle in VisitEach(g, targets, path)
    decreases targets
  {
    if i > 0 {
      VisitEachHasEach(g, targets[1..], path, i - 1, cycle);
    }
  }

  /** Walking an elementary cycle from its first role meets it whole. */
  lemma {:induction false} VisitMeets(g: Graph, cycle: seq<string>, k: nat)
    requires Elementary(g, cycle) && k <= |cycle|
    ensures cycle + [cycle[0]] in Visit(g, if k < |cycle| then cycle[k] else cycle[0], cycle[..k])
    decreases |cycle| - k
  {
    if k == |cycle| {
      assert cycle[..k] == cycle && cycle[0..] == cycle;
      assert IndexOf(cycle, cycle[0]) == 0;
    } else {
      VisitMeets(g, cycle, k + 1);
      var role := cycle[k];
      var next := if k + 1 < |cycle| then cycle[k + 1] else cycle[0];
      assert cycle[..k + 1] == cycle[..k] + [role];
      assert Edge(g, role, next);
      var i :| 0 <= i < |g[role]| && g[role][i] == next;
      VisitEachHasEach(g, g[role], cycle[..k + 1], i, cycle + [cycle[0]]);
      assert IndexOf(cycle[..k], role) == k;
    }
  }

  lemma {:induction false} SearchMeets(g: Graph, order: seq<string>, cycle: seq<string>)
    requires Elementary(g, cycle) && forall r :: r in g ==> r in order
    ensures cycle + [cycle[0]] in Search(g, order)
  {
    VisitMeets(g, cycle, 0);
    assert cycle[..0] == [];
    assert cycle[0] in cycle;
    var i :| 0 <= i < |order| && order[i] == cycle[0];
    VisitEachHasEach(g, order, [], i, cycle + [cycle[0]]);
  }

  /** Every closed walk holds an elementary cycle. */
  lemma {:induction false} WalkHasCycle(g: Graph, walk: seq<string>) returns (cycle: seq<string>)
    requires ClosedWalk(g, walk)
    ensures Elementary(g, cycle) && Roles(cycle) <= Roles(walk)
    decreases |walk|
  {
    cycle := walk[..|walk| - 1];
    if !Distinct(cycle) {
      var i, j :| 0 <= i < j < |cycle| && cycle[i] == cycle[j];
      var shorter := walk[i..j + 1];
      forall k | 0 <= k < |shorter| - 1
        ensures Edge(g, shorter[k], shorter[k + 1])
      {
        assert Edge(g, walk[i + k], walk[i + k + 1]);
      }
      assert forall r :: r in shorter ==> r in walk;
      cycle := WalkHasCycle(g, shorter);
    } else {
      forall k | 0 <= k < |cycle| ensures Edge(g, walk[k], walk[k + 1]) {}
      forall r | r in cycle ensures r in g {
        var k :| 0 <= k < |cycle| && cycle[k] == r;
        assert Edge(g, walk[k], walk[k + 1]);
      }
    }
  }

  // ---- reporting ---------------------------------------------------------------------------

  /** A cycle's key: its roles, in an order that depends on the set alone, joined by a bar. */
  function Join(names: seq<string>): string {
    if names == [] then "" else if |names| == 1 then names[0] else names[0] + "|" + Join(names[1..])
  }

  type Sorter = set<string> -> seq<string>

  ghost predicate Sorts(sort: Sorter) {
    forall s: set<string> :: Roles(sort(s)) == s
  }

  function KeyOf(sort: Sorter, cycle: seq<string>): string {
    Join(sort(Roles(cycle)))
  }

  predicate HasKey(sort: Sorter, messages: seq<seq<string>>, key: string) {
    exists m :: m in messages && KeyOf(sort, m) == key
  }

  /** The messages after more cycles are met: one for each key not yet reported. */
  function ReportOnto(sort: Sorter, messages: seq<seq<string>>, found: seq<seq<string>>): seq<seq<string>>
    decreases found
  {
    if found == [] then messages
    else
      var more := if HasKey(sort, messages, KeyOf(sort, found[0])) then messages else messages + [found[0]];
      ReportOnto(sort, more, found[1..])
  }

  lemma {:induction false} ReportAppend(sort: Sorter, messages: seq<seq<string>>, a: seq<seq<string>>,
      b: seq<seq<string>>)
    ensures ReportOnto(sort, messages, a + b) == ReportOnto(sort, ReportOnto(sort, messages, a), b)
    decreases a
  {
    if a == [] {
      assert a + b == b;
    } else {
      assert (a + b)[1..] == a[1..] + b;
      ReportAppend(sort, if HasKey(sort, messages, KeyOf(sort, a[0])) then messages else messages + [a[0]], a[1..], b);
    }
  }

  ghost predicate OnePerKey(sort: Sorter, messages: seq<seq<string>>) {
    forall i, j :: 0 <= i < j < |messages| ==> KeyOf(sort, messages[i]) != KeyOf(sort, messages[j])
  }

  lemma {:induction false} ReportedOnce(sort: Sorter, messages: seq<seq<string>>, found: seq<seq<string>>)
    requires OnePerKey(sort, messages)
    ensures var all := ReportOnto(sort, messages, found);
            && OnePerKey(sort, all)
            && (forall m :: m in messages ==> m in all)
            && (forall m :: m in all ==> m in messages || m in found)
            && (forall c :: c in found ==> HasKey(sort, all, KeyOf(sort, c)))
    decreases found
  {
    if found != [] {
      var next := if HasKey(sort, messages, KeyOf(sort, found[0])) then messages else messages + [found[0]];
      ReportedOnce(sort, next, found[1..]);
      assert HasKey(sort, next, KeyOf(sort, found[0])) by {
        if !HasKey(sort, messages, KeyOf(sort, found[0])) {
          assert next[|messages|] == found[0];
        }
      }
      assert forall m :: m in messages ==> m in next;
    }
  }

  function Messages(sort: Sorter, g: Graph, order: seq<string>): seq<seq<string>> {
    ReportOnto(sort, [], Search(g, order))
  }

  /** Every reported path is a closed walk over configured roles, elementary but for its repeated end. */
  lemma {:induction false} ReportsAreReal(sort: Sorter, g: Graph, order: seq<string>)
    requires forall r :: r in order ==> r in g
    ensures AllReal(g, Messages(sort, g, order))
  {
    VisitEachFindsReal(g, order, []);
    ReportedOnce(sort, [], Search(g, order));
  }

  lemma {:induction false} WalkIsReported(sort: Sorter, g: Graph, order: seq<string>, walk: seq<string>)
    requires (forall r :: r in g ==> r in order) && ClosedWalk(g, walk)
    ensures Messages(sort, g, order) != []
  {
    var cycle := WalkHasCycle(g, walk);
    SearchMeets(g, order, cycle);
    ReportedOnce(sort, [], Search(g, order));
    assert HasKey(sort, Messages(sort, g, order), KeyOf(sort, cycle + [cycle[0]]));
  }

  /** No message exactly when no closed walk: silence means the delegation is acyclic. */
  lemma {:induction false} SilentIffAcyclic(sort: Sorter, g: Graph, order: seq<string>)
    requires forall r :: r in order <==> r in g
    ensures Messages(sort, g, order) == [] <==> forall walk :: !ClosedWalk(g, walk)
  {
    ReportsAreReal(sort, g, order);
    forall walk | ClosedWalk(g, walk) ensures Messages(sort, g, order) != [] {
      WalkIsReported(sort, g, order, walk);
    }
    var messages := Messages(sort, g, order);
    if messages != [] {
      assert messages[0] in messages && ClosedWalk(g, messages[0]);
    }
  }

  ghost predicate Names(m: seq<string>, cycle: seq<string>) {
    Roles(m) == Roles(cycle)
  }

  /** Some message reports the set of roles of `cycle`. */
  ghost predicate Reported(sort: Sorter, g: Graph, order: seq<string>, cycle: seq<string>) {
    exists m :: m in Messages(sort, g, order) && Names(m, cycle)
  }

  ghost predicate KeysTellApart(sort: Sorter, g: Graph) {
    forall a, b :: Elementary(g, a) && Elementary(g, b) && KeyOf(sort, a) == KeyOf(sort, b) ==> Roles(a) == Roles(b)
  }

  /** No set of roles is reported twice. */
  lemma {:induction false} NeverTwice(sort: Sorter, g: Graph, order: seq<string>, i: nat, j: nat)
    requires i < |Messages(sort, g, order)| && j < |Messages(sort, g, order)|
    requires Names(Messages(sort, g, order)[i], Messages(sort, g, order)[j])
    ensures i == j
  {
    ReportedOnce(sort, [], Search(g, order));
  }

  lemma {:induction false} ClosingAddsNoRole(cycle: seq<string>)
    requires cycle != []
    ensures Roles(cycle + [cycle[0]]) == Roles(cycle)
  {
  }

  lemma {:induction false} ReportedByKey(sort: Sorter, g: Graph, order: seq<string>, cycle: seq<string>)
    returns (m: seq<string>)
    requires (forall r :: r in order <==> r in g) && Elementary(g, cycle)
    ensures m in Messages(sort, g, order) && KeyOf(sort, m) == KeyOf(sort, cycle)
    ensures |m| >= 2 && Elementary(g, m[..|m| - 1]) && Roles(m[..|m| - 1]) == Roles(m)
  {
    SearchMeets(g, order, cycle);
    ReportedOnce(sort, [], Search(g, order));
    ClosingAddsNoRole(cycle);
    ReportsAreReal(sort, g, order);
    m :| m in Messages(sort, g, order) && KeyOf(sort, m) == KeyOf(sort, cycle + [cycle[0]]);
    WalkRoles(g, m);
  }

  lemma {:induction false} WalkRoles(g: Graph, walk: seq<string>)
    requires ClosedWalk(g, walk)
    ensures Roles(walk[..|walk| - 1]) == Roles(walk)
  {
    ClosingAddsNoRole(walk[..|walk| - 1]);
    assert walk == walk[..|walk| - 1] + [walk[0]];
  }

  /** Each elementary cycle's set of roles is reported exactly when no two such sets share a key. */
  lemma {:induction false} EverySetReportedIffKeysTellApart(sort: Sorter, g: Graph, order: seq<string>)
    requires forall r :: r in order <==> r in g
    ensures (forall cycle :: Elementary(g, cycle) ==> Reported(sort, g, order, cycle)) <==> KeysTellApart(sort, g)
  {
    var messages := Messages(sort, g, order);
    if KeysTellApart(sort, g) {
      forall cycle | Elementary(g, cycle) ensures Reported(sort, g, order, cycle) {
        var m := ReportedByKey(sort, g, order, cycle);
        assert KeyOf(sort, m[..|m| - 1]) == KeyOf(sort, cycle);
        assert Names(m, cycle);
      }
    }
    if forall cycle :: Elementary(g, cycle) ==> Reported(sort, g, order, cycle) {
      ReportedOnce(sort, [], Search(g, order));
      forall a, b | Elementary(g, a) && Elementary(g, b) && KeyOf(sort, a) == KeyOf(sort, b)
        ensures Roles(a) == Roles(b)
      {
        assert Reported(sort, g, order, a) && Reported(sort, g, order, b);
        var x :| x in messages && Names(x, a);
        var y :| y in messages && Names(y, b);
        var i :| 0 <= i < |messages| && messages[i] == x;
        var j :| 0 <= j < |messages| && messages[j] == y;
        assert KeyOf(sort, messages[i]) == KeyOf(sort, messages[j]);
      }
    }
  }

  // ---- keys --------------------------------------------------------------------------------

  predicate NoBar(name: string) {
    '|' !in name
  }

  function UpToBar(text: string): string {
    if text == "" || text[0] == '|' then "" else [text[0]] + UpToBar(text[1..])
  }

  lemma {:induction false} UpToBarIsName(name: string, rest: string)
    requires NoBar(name) && (rest == "" || rest[0] == '|')
    ensures UpToBar(name + rest) == name
    decreases |name|
  {
    if name == "" {
      assert name + rest == rest;
    } else {
      assert (name + rest)[1..] == name[1..] + rest;
      UpToBarIsName(name[1..], rest);
    }
  }

  function AfterFirst(names: seq<string>): string
    requires names != []
  {
    if |names| == 1 then "" else "|" + Join(names[1..])
  }

  lemma {:induction false} JoinSplits(names: seq<string>)
    requires names != [] && NoBar(names[0])
    ensures UpToBar(Join(names)) == names[0] && Join(names)[|names[0]|..] == AfterFirst(names)
    ensures |names| > 1 ==> AfterFirst(names)[1..] == Join(names[1..])
  {
    assert Join(names) == names[0] + AfterFirst(names);
    UpToBarIsName(names[0], AfterFirst(names));
  }

  lemma {:induction false} JoinTellsApart(a: seq<string>, b: seq<string>)
    requires a != [] && b != [] && Join(a) == Join(b)
    requires (forall x :: x in a ==> NoBar(x)) && (forall x :: x in b ==> NoBar(x))
    ensures a == b
    decreases |a|
  {
    assert a[0] in a && b[0] in b;
    JoinSplits(a);
    JoinSplits(b);
    assert AfterFirst(a) == AfterFirst(b);
    assert a == [a[0]] + a[1..] && b == [b[0]] + b[1..];
    if |a| > 1 {
      JoinTellsApart(a[1..], b[1..]);
    }
  }

  /** With no bar in any configured role's name, every elementary cycle's set of roles is reported, and none twice. */
  lemma {:induction false} NoBarReportsEverySet(sort: Sorter, g: Graph, order: seq<string>, cycle: seq<string>)
    requires Sorts(sort) && (forall r :: r in order <==> r in g) && (forall r :: r in g ==> NoBar(r))
    requires Elementary(g, cycle)
    ensures Reported(sort, g, order, cycle)
  {
    forall a, b | Elementary(g, a) && Elementary(g, b) && KeyOf(sort, a) == KeyOf(sort, b)
      ensures Roles(a) == Roles(b)
    {
      SortedNames(sort, g, a);
      SortedNames(sort, g, b);
      JoinTellsApart(sort(Roles(a)), sort(Roles(b)));
    }
    EverySetReportedIffKeysTellApart(sort, g, order);
  }

  lemma {:induction false} SortedNames(sort: Sorter, g: Graph, cycle: seq<string>)
    requires Sorts(sort) && Elementary(g, cycle) && (forall r :: r in g ==> NoBar(r))
    ensures Roles(sort(Roles(cycle))) == Roles(cycle) && sort(Roles(cycle)) != []
    ensures forall x :: x in sort(Roles(cycle)) ==> NoBar(x)
  {
    assert cycle[0] in Roles(cycle);
    assert forall x :: x in sort(Roles(cycle)) ==> x in Roles(sort(Roles(cycle)));
  }

  /** The cycle met first is reported, and no other under its key. */
  lemma {:induction false} FirstTakesItsKey(sort: Sorter, g: Graph, order: seq<string>, cycle: seq<string>)
    requires Search(g, order) != []
    requires KeyOf(sort, cycle) == KeyOf(sort, Search(g, order)[0]) && Roles(cycle) != Roles(Search(g, order)[0])
    ensures !Reported(sort, g, order, cycle)
  {
    var found, messages := Search(g, order), Messages(sort, g, order);
    assert [] + [found[0]] == [found[0]] && !HasKey(sort, [], KeyOf(sort, found[0]));
    assert messages == ReportOnto(sort, [found[0]], found[1..]);
    ReportedOnce(sort, [found[0]], found[1..]);
    assert found[0] in messages;
    forall m | m in messages ensures !Names(m, cycle) {
      var i :| 0 <= i < |messages| && messages[i] == m;
      var j :| 0 <= j < |messages| && messages[j] == found[0];
      assert KeyOf(sort, messages[i]) == KeyOf(sort, messages[j]) ==> i == j;
    }
  }

  function BarGraph(): Graph {
    map["a|b" := ["a|b"], "a" := ["b"], "b" := ["a"]]
  }

  lemma {:induction false} SharedKey(sort: Sorter)
    requires sort({"a", "b"}) == ["a", "b"] && sort({"a|b"}) == ["a|b"]
    ensures Roles(["a", "b"]) == {"a", "b"} && Roles(["a|b"]) == {"a|b"} && {"a", "b"} != {"a|b"}
    ensures KeyOf(sort, ["a", "b"]) == KeyOf(sort, ["a|b"])
  {
    var pair, one := ["a", "b"], ["a|b"];
    assert pair[0] == "a" && pair[1] == "b" && one[0] == "a|b" && |"a"| != |"a|b"|;
    assert "a" in {"a", "b"} && "a" !in {"a|b"};
    assert pair[1..] == ["b"];
    assert Join(pair) == "a" + "|" + "b" == "a|b" == Join(one);
  }

  lemma {:induction false} BarIsMetFirst(order: seq<string>)
    requires order == ["a|b", "a", "b"]
    ensures Search(BarGraph(), order) != [] && Search(BarGraph(), order)[0] == ["a|b", "a|b"]
  {
    var g := BarGraph();
    var path := ["a|b"];
    assert [] + path == path && path[0..] == path && path[1..] == [] && path + ["a|b"] == ["a|b", "a|b"];
    assert path[0] == "a|b" && IndexOf(path, "a|b") == 0;
    assert Visit(g, "a|b", path) == [path[0..] + ["a|b"]];
    assert VisitEach(g, ["a|b"], ["a|b"]) == [["a|b", "a|b"]];
    assert IndexOf([], "a|b") == 0 && g["a|b"] == ["a|b"];
    assert Visit(g, "a|b", []) == [["a|b", "a|b"]];
    assert order[0] == "a|b";
  }

  /**
   * A bar in a name can hide a cycle: the role `a|b` and the pair `a`, `b` share a key, and the pair goes unreported.
   */
  lemma {:induction false} BarHidesACycle(sort: Sorter, order: seq<string>)
    requires sort({"a", "b"}) == ["a", "b"] && sort({"a|b"}) == ["a|b"] && order == ["a|b", "a", "b"]
    ensures Elementary(BarGraph(), ["a", "b"]) && !Reported(sort, BarGraph(), order, ["a", "b"])
    ensures Elementary(BarGraph(), ["a|b"]) && !KeysTellApart(sort, BarGraph())
  {
    var g, pair, one := BarGraph(), ["a", "b"], ["a|b"];
    assert pair[0] == "a" && pair[1] == "b" && "a" != "b";
    assert Elementary(g, pair) && Elementary(g, one);
    SharedKey(sort);
    BarIsMetFirst(order);
    ClosingAddsNoRole(one);
    assert one + [one[0]] == ["a|b", "a|b"];
    FirstTakesItsKey(sort, g, order, pair);
  }

  // ---- the search as it runs ---------------------------------------------------------------

  ghost predicate Recorded(sort: Sorter, reported: set<string>, messages: seq<seq<string>>) {
    forall key :: key in reported <==> HasKey(sort, messages, key)
  }

  /** `visit`, pushing into the messages and the reported keys as it goes. */
  method VisitRole(sort: Sorter, g: Graph, role: string, path: seq<string>, reportedBefore: set<string>,
      before: seq<seq<string>>)
    returns (reported: set<string>, messages: seq<seq<string>>)
    requires Recorded(sort, reportedBefore, before)
    ensures messages == ReportOnto(sort, before, Visit(g, role, path))
    ensures Recorded(sort, reported, messages)
    decreases g.Keys - Roles(path)
  {
    reported, messages := reportedBefore, before;
    var at := IndexOf(path, role);
    if at < |path| {
      var cycle := path[at..] + [role];
      var key := KeyOf(sort, cycle);
      if key !in reported {
        reported, messages := reported + {key}, messages + [cycle];
        assert forall m :: m in messages <==> m in before || m == cycle;
      }
    } else if role in g {
      var targets := g[role];
      assert role in g.Keys - Roles(path) && role in Roles(path + [role]);
      for i := 0 to |targets|
        invariant Recorded(sort, reported, messages)
        invariant ReportOnto(sort, messages, VisitEach(g, targets[i..], path + [role])) ==
                  ReportOnto(sort, before, Visit(g, role, path))
      {
        assert targets[i..][1..] == targets[i + 1..];
        ReportAppend(sort, messages, Visit(g, targets[i], path + [role]),
          VisitEach(g, targets[i + 1..], path + [role]));
        reported, messages := VisitRole(sort, g, targets[i], path + [role], reported, messages);
      }
    }
  }

  method DelegationMessages(sort: Sorter, g: Graph, order: seq<string>) returns (messages: seq<seq<string>>)
    requires forall r :: r in order <==> r in g
    ensures messages == Messages(sort, g, order)
    ensures AllReal(g, messages)
    ensures messages == [] <==> forall walk :: !ClosedWalk(g, walk)
  {
    var reported := {};
    messages := [];
    for i := 0 to |order|
      invariant Recorded(sort, reported, messages)
      invariant ReportOnto(sort, messages, VisitEach(g, order[i..], [])) == Messages(sort, g, order)
    {
      assert order[i..][1..] == order[i + 1..];
      ReportAppend(sort, messages, Visit(g, order[i], []), VisitEach(g, order[i + 1..], []));
      reported, messages := VisitRole(sort, g, order[i], [], reported, messages);
    }
    ReportsAreReal(sort, g, order);
    SilentIffAcyclic(sort, g, order);
  }
}
