/**
 * Following names: each name either leads to another (or to nothing), or is where the walk ends.
 */
module Walks {
  import opened Wrappers

  type Links<!N> = map<N, Option<N>>

  /** Where a walk of at most `n` links from `from` ends; None while it has not. */
  function Walk<N>(links: Links<N>, from: Option<N>, n: nat): Option<Option<N>>
    decreases n
  {
    if from.Some? && from.value in links then
      if n == 0 then None else Walk(links, links[from.value], n - 1)
    else Some(from)
  }

  ghost predicate Ends<N>(links: Links<N>, from: Option<N>, end: Option<N>) {
    exists n: nat :: Walk(links, from, n) == Some(end)
  }

  /** Exactly `k` links lead from `from` to `to`. */
  predicate Leads<N(==)>(links: Links<N>, from: Option<N>, k: nat, to: Option<N>)
    decreases k
  {
    if k == 0 then from == to
    else from.Some? && from.value in links && Leads(links, links[from.value], k - 1, to)
  }

  lemma {:induction false} WalkLonger<N>(links: Links<N>, from: Option<N>, n: nat, m: nat)
    requires Walk(links, from, n).Some? && n <= m
    ensures Walk(links, from, m) == Walk(links, from, n)
    decreases n
  {
    if from.Some? && from.value in links {
      WalkLonger(links, links[from.value], n - 1, m - 1);
    }
  }

  lemma {:induction false} OneEnd<N>(links: Links<N>, from: Option<N>, a: Option<N>, b: Option<N>)
    requires Ends(links, from, a) && Ends(links, from, b)
    ensures a == b
  {
    var n: nat :| Walk(links, from, n) == Some(a);
    var m: nat :| Walk(links, from, m) == Some(b);
    if n <= m { WalkLonger(links, from, n, m); } else { WalkLonger(links, from, m, n); }
  }

  lemma {:induction false} LeadsThenWalk<N>(links: Links<N>, from: Option<N>, k: nat, to: Option<N>, n: nat)
    requires Leads(links, from, k, to)
    ensures Walk(links, from, k + n) == Walk(links, to, n)
    decreases k
  {
    if k > 0 {
      LeadsThenWalk(links, links[from.value], k - 1, to, n);
    }
  }

  lemma {:induction false} WalkPasses<N>(links: Links<N>, from: Option<N>, k: nat, to: Option<N>, n: nat)
    requires Leads(links, from, k, to) && Walk(links, from, n).Some?
    ensures k <= n && Walk(links, to, n - k) == Walk(links, from, n)
    decreases k
  {
    if k > 0 {
      WalkPasses(links, links[from.value], k - 1, to, n - 1);
    }
  }

  /** Linking a name straight to where `k` of its links lead changes no walk's end, and ends no endless one. */
  lemma {:induction false} RerouteForward<N>(links: Links<N>, a: N, k: nat, to: Option<N>, x: Option<N>, n: nat)
    requires a in links && k >= 1 && Leads(links, Some(a), k, to) && Walk(links, x, n).Some?
    ensures Ends(links[a := to], x, Walk(links, x, n).value)
    decreases n
  {
    var after := links[a := to];
    var end := Walk(links, x, n).value;
    if x.Some? && x.value in links {
      var next := if x.value == a then to else links[x.value];
      if x.value == a {
        WalkPasses(links, x, k, to, n);
        RerouteForward(links, a, k, to, to, n - k);
      } else {
        RerouteForward(links, a, k, to, next, n - 1);
      }
      var m: nat :| Walk(after, next, m) == Some(end);
      assert Walk(after, x, m + 1) == Some(end);
    } else {
      assert Walk(after, x, 0) == Some(end);
    }
  }

  lemma {:induction false} RerouteBackward<N>(links: Links<N>, a: N, k: nat, to: Option<N>, x: Option<N>, n: nat)
    requires a in links && k >= 1 && Leads(links, Some(a), k, to) && Walk(links[a := to], x, n).Some?
    ensures Ends(links, x, Walk(links[a := to], x, n).value)
    decreases n
  {
    var after := links[a := to];
    var end := Walk(after, x, n).value;
    if x.Some? && x.value in links {
      RerouteBackward(links, a, k, to, after[x.value], n - 1);
      var m: nat :| Walk(links, after[x.value], m) == Some(end);
      if x.value == a {
        LeadsThenWalk(links, x, k, to, m);
        assert Walk(links, x, k + m) == Some(end);
      } else {
        assert Walk(links, x, m + 1) == Some(end);
      }
    } else {
      assert Walk(links, x, 0) == Some(end);
    }
  }

  lemma {:induction false} Reroute<N>(links: Links<N>, a: N, k: nat, to: Option<N>, x: Option<N>, end: Option<N>)
    requires a in links && k >= 1 && Leads(links, Some(a), k, to)
    ensures Ends(links, x, end) <==> Ends(links[a := to], x, end)
  {
    if Ends(links, x, end) {
      var n: nat :| Walk(links, x, n) == Some(end);
      RerouteForward(links, a, k, to, x, n);
    }
    if Ends(links[a := to], x, end) {
      var n: nat :| Walk(links[a := to], x, n) == Some(end);
      RerouteBackward(links, a, k, to, x, n);
    }
  }

  /** `fresh` is no link and nothing leads to it. */
  ghost predicate Unused<N>(links: Links<N>, name: N) {
    name !in links && forall a :: a in links ==> links[a] != Some(name)
  }

  /** The links with an unused name put between `a` and what follows it. */
  function Between<N>(links: Links<N>, a: N, name: N): Links<N>
    requires a in links
  {
    links[a := Some(name)][name := links[a]]
  }

  lemma {:induction false} BetweenForward<N>(links: Links<N>, a: N, name: N, x: Option<N>, n: nat)
    requires a in links && Unused(links, name) && x != Some(name) && Walk(links, x, n).Some?
    ensures Ends(Between(links, a, name), x, Walk(links, x, n).value)
    decreases n
  {
    var after := Between(links, a, name);
    var end := Walk(links, x, n).value;
    if x.Some? && x.value in links {
      BetweenForward(links, a, name, links[x.value], n - 1);
      var m: nat :| Walk(after, links[x.value], m) == Some(end);
      if x.value == a {
        assert Walk(after, Some(name), m + 1) == Some(end);
        assert Walk(after, x, m + 2) == Some(end);
      } else {
        assert Walk(after, x, m + 1) == Some(end);
      }
    } else {
      assert Walk(after, x, 0) == Some(end);
    }
  }

  lemma {:induction false} BetweenBackward<N>(links: Links<N>, a: N, name: N, x: Option<N>, n: nat)
    requires a in links && Unused(links, name) && x != Some(name) && Walk(Between(links, a, name), x, n).Some?
    ensures Ends(links, x, Walk(Between(links, a, name), x, n).value)
    decreases n
  {
    var after := Between(links, a, name);
    var end := Walk(after, x, n).value;
    if x.Some? && x.value in links {
      if x.value == a {
        assert Walk(after, Some(name), n - 1) == Some(end);
        BetweenBackward(links, a, name, links[a], n - 2);
      } else {
        BetweenBackward(links, a, name, links[x.value], n - 1);
      }
      var m: nat :| Walk(links, links[x.value], m) == Some(end);
      assert Walk(links, x, m + 1) == Some(end);
    } else {
      assert Walk(links, x, 0) == Some(end);
    }
  }

  lemma {:induction false} InsertBetween<N>(links: Links<N>, a: N, name: N, x: Option<N>, end: Option<N>)
    requires a in links && Unused(links, name) && x != Some(name)
    ensures Ends(links, x, end) <==> Ends(Between(links, a, name), x, end)
  {
    if Ends(links, x, end) {
      var n: nat :| Walk(links, x, n) == Some(end);
      BetweenForward(links, a, name, x, n);
    }
    if Ends(Between(links, a, name), x, end) {
      var n: nat :| Walk(Between(links, a, name), x, n) == Some(end);
      BetweenBackward(links, a, name, x, n);
    }
  }

  /** Within a set of names each of which leads to another of the set, no walk ends. */
  lemma {:induction false} ClosedNeverEnds<N>(links: Links<N>, closed: set<N>, x: N, n: nat)
    requires x in closed
    requires forall a :: a in closed ==> a in links && links[a].Some? && links[a].value in closed
    ensures Walk(links, Some(x), n) == None
    decreases n
  {
    if n > 0 {
      ClosedNeverEnds(links, closed, links[x].value, n - 1);
    }
  }

  ghost predicate Reaches<N>(links: Links<N>, from: Option<N>, name: N) {
    exists k: nat :: Leads(links, from, k, Some(name))
  }

  lemma {:induction false} ReachesNext<N>(links: Links<N>, x: N, name: N)
    requires x in links && x != name
    ensures Reaches(links, Some(x), name) <==> Reaches(links, links[x], name)
  {
    if Reaches(links, Some(x), name) {
      var k: nat :| Leads(links, Some(x), k, Some(name));
      assert Leads(links, links[x], k - 1, Some(name));
    }
    if Reaches(links, links[x], name) {
      var k: nat :| Leads(links, links[x], k, Some(name));
      assert Leads(links, Some(x), k + 1, Some(name));
    }
  }

  /** A walk that does not come by a name does not see what that name leads to. */
  lemma {:induction false} RelinkedAside<N>(links: Links<N>, a: N, to: Option<N>, x: Option<N>, n: nat)
    requires a in links && !Reaches(links, x, a)
    ensures Walk(links[a := to], x, n) == Walk(links, x, n)
    decreases n
  {
    assert x == Some(a) ==> Leads(links, x, 0, Some(a));
    if x.Some? && x.value in links && n > 0 {
      ReachesNext(links, x.value, a);
      RelinkedAside(links, a, to, links[x.value], n - 1);
    }
  }

  /** A walk that comes by a name ends where the walk from there ends. */
  lemma {:induction false} EndsAlong<N>(links: Links<N>, x: Option<N>, end: Option<N>)
    requires x.Some? && x.value in links
    ensures Ends(links, x, end) <==> Ends(links, links[x.value], end)
  {
    if Ends(links, x, end) {
      var n: nat :| Walk(links, x, n) == Some(end);
      assert Walk(links, links[x.value], n - 1) == Some(end);
    }
    if Ends(links, links[x.value], end) {
      var n: nat :| Walk(links, links[x.value], n) == Some(end);
      assert Walk(links, x, n + 1) == Some(end);
    }
  }

  lemma {:induction false} RelinkedAlong<N>(links: Links<N>, a: N, to: Option<N>, x: Option<N>, k: nat, end: Option<N>)
    requires a in links && Leads(links, x, k, Some(a))
    ensures Ends(links[a := to], x, end) <==> Ends(links[a := to], Some(a), end)
    decreases k
  {
    if x != Some(a) {
      EndsAlong(links[a := to], x, end);
      RelinkedAlong(links, a, to, links[x.value], k - 1, end);
    }
  }

  /** Where `b` already leads to `a`, linking `a` as `b` is linked closes a circle. */
  lemma {:induction false} RelinkedInCircle<N>(links: Links<N>, a: N, b: N, x: Option<N>, n: nat)
    requires a in links && b in links && a != b && Reaches(links, Some(b), a) && Reaches(links, x, a)
    ensures Walk(links[a := links[b]], x, n) == None
    decreases n
  {
    var k: nat :| Leads(links, x, k, Some(a));
    assert x.Some? && x.value in links;
    if n > 0 {
      ReachesNext(links, b, a);
      if x.value != a {
        ReachesNext(links, x.value, a);
      }
      RelinkedInCircle(links, a, b, if x.value == a then links[b] else links[x.value], n - 1);
    }
  }

  /** Two sets of links end every walk alike, from the names of interest. */
  ghost predicate SameEnds<N(!new)>(a: Links<N>, b: Links<N>, skip: N -> bool) {
    forall x: N, end: Option<N> :: !skip(x) ==> (Ends(a, Some(x), end) <==> Ends(b, Some(x), end))
  }

  lemma {:induction false} AddUnused<N>(links: Links<N>, name: N, to: Option<N>, x: Option<N>, n: nat)
    requires Unused(links, name) && x != Some(name)
    ensures Walk(links[name := to], x, n) == Walk(links, x, n)
    decreases n
  {
    if x.Some? && x.value in links && n > 0 {
      AddUnused(links, name, to, links[x.value], n - 1);
    }
  }

  lemma {:induction false} LeadsInMore<N>(links: Links<N>, more: Links<N>, from: Option<N>, k: nat, to: Option<N>)
    requires Leads(links, from, k, to) && forall a :: a in links ==> a in more && more[a] == links[a]
    ensures Leads(more, from, k, to)
    decreases k
  {
    if k > 0 {
      LeadsInMore(links, more, links[from.value], k - 1, to);
    }
  }
}
