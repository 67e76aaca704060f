/**
 * Finding an error that another error carries, down `cause` and `data.cause` links that may share nodes or loop. The
 * search for a nested auth error and the one for an issuer-binding failure differ only in the test.
 */
module ErrorChain {
  import opened Options

  type Node = nat

  /** What a link holds: an object, or something the search does not enter. */
  datatype Link = Nothing | To(node: Node)

  /** `dataCause` is the `cause` of the error's `data`, when that is an object. */
  datatype Links = Links(cause: Link, dataCause: Link)

  type Graph = map<Node, Links>

  ghost predicate Closed(g: Graph) {
    forall n <- g :: Within(g, g[n].cause) && Within(g, g[n].dataCause)
  }

  ghost predicate Within(g: Graph, l: Link) {
    l.To? ==> l.node in g
  }

  // ----- Reachability -----

  /** A path lists the nodes entered, one link at a time. */
  ghost predicate IsPath(g: Graph, start: Link, path: seq<Node>)
    decreases |path|
  {
    && path != []
    && start == To(path[0]) && path[0] in g
    && (|path| > 1 ==> IsPath(g, g[path[0]].cause, path[1..]) || IsPath(g, g[path[0]].dataCause, path[1..]))
  }

  ghost predicate Reaches(g: Graph, start: Link, end: Node) {
    exists path :: IsPath(g, start, path) && path[|path| - 1] == end
  }

  /** A set the links do not leave holds everything reachable from it. */
  lemma {:induction false} ClosedHoldsPath(g: Graph, closed: set<Node>, start: Link, path: seq<Node>)
    requires closed <= g.Keys
    requires forall n <- closed :: Inside(closed, g[n].cause) && Inside(closed, g[n].dataCause)
    requires Inside(closed, start) && IsPath(g, start, path)
    ensures path[|path| - 1] in closed
    decreases |path|
  {
    if |path| > 1 {
      if IsPath(g, g[path[0]].cause, path[1..]) {
        ClosedHoldsPath(g, closed, g[path[0]].cause, path[1..]);
      } else {
        ClosedHoldsPath(g, closed, g[path[0]].dataCause, path[1..]);
      }
    }
  }

  ghost predicate Inside(s: set<Node>, l: Link) {
    l.To? ==> l.node in s
  }

  /** What a failed search leaves: everything it newly saw fails the test and links only to what has been seen. */
  ghost predicate Exhausted(g: Graph, matches: Node -> bool, before: set<Node>, after: set<Node>) {
    && before <= after <= g.Keys
    && forall n <- after - before :: !matches(n) && Inside(after, g[n].cause) && Inside(after, g[n].dataCause)
  }

  // ----- The first match -----

  ghost predicate IsSimple(path: seq<Node>) {
    forall i, j | 0 <= i < j < |path| :: path[i] != path[j]
  }

  ghost predicate Avoids(path: seq<Node>, nodes: set<Node>) {
    forall n <- path :: n !in nodes
  }

  /** A way to a match: a path without repetition, through none of the nodes given, that ends in one. */
  ghost predicate IsWay(g: Graph, matches: Node -> bool, start: Link, avoided: set<Node>, path: seq<Node>) {
    IsPath(g, start, path) && IsSimple(path) && Avoids(path, avoided) && matches(path[|path| - 1])
  }

  /** Depth first, `cause` before `data.cause`: one path runs into the other, or takes `cause` where they part. */
  ghost predicate Precedes(g: Graph, p: seq<Node>, q: seq<Node>)
    decreases |p|
  {
    && p != [] && q != [] && p[0] == q[0] && p[0] in g
    && (|p| > 1 ==>
          |q| > 1 && (if p[1] == q[1] then Precedes(g, p[1..], q[1..]) else g[p[0]].cause == To(p[1])))
  }

  /** No way comes before the first. */
  ghost predicate IsFirst(g: Graph, matches: Node -> bool, start: Link, avoided: set<Node>, path: seq<Node>) {
    && IsWay(g, matches, start, avoided, path)
    && forall q | IsWay(g, matches, start, avoided, q) :: Precedes(g, path, q)
  }

  lemma {:induction false} PrecedesOneWay(g: Graph, p: seq<Node>, q: seq<Node>)
    requires Precedes(g, p, q) && Precedes(g, q, p)
    ensures p == q
    decreases |p|
  {
    if |p| > 1 {
      assert p[1] == q[1];
      PrecedesOneWay(g, p[1..], q[1..]);
      assert p == [p[0]] + p[1..] && q == [q[0]] + q[1..];
    } else {
      assert p == [p[0]] && q == [q[0]];
    }
  }

  /** There is one first way, if any, so one first match. */
  lemma FirstIsUnique(
    g: Graph, matches: Node -> bool, start: Link, avoided: set<Node>, p: seq<Node>, q: seq<Node>)
    requires IsFirst(g, matches, start, avoided, p) && IsFirst(g, matches, start, avoided, q)
    ensures p == q
  {
    PrecedesOneWay(g, p, q);
  }

  /** A way from a node that is no match itself is a way on from one of its links. */
  lemma WayOn(g: Graph, matches: Node -> bool, n: Node, avoided: set<Node>, q: seq<Node>)
    requires IsWay(g, matches, To(n), avoided, q) && !matches(n)
    ensures |q| > 1 && q[0] == n && n in g
    ensures
      || IsWay(g, matches, g[n].cause, avoided + {n}, q[1..])
      || IsWay(g, matches, g[n].dataCause, avoided + {n}, q[1..])
  {
    forall m | m in q[1..]
      ensures m !in avoided + {n}
    {
      var i :| 0 <= i < |q[1..]| && q[1..][i] == m;
      assert q[i + 1] == m && m in q;
    }
  }

  lemma WayFrom(g: Graph, matches: Node -> bool, n: Node, next: Link, avoided: set<Node>, q: seq<Node>)
    requires n in g && n !in avoided && (next == g[n].cause || next == g[n].dataCause)
    requires IsWay(g, matches, next, avoided + {n}, q)
    ensures IsWay(g, matches, To(n), avoided, [n] + q)
  {
    var longer := [n] + q;
    assert longer[1..] == q;
    assert forall m <- q :: m != n && m !in avoided;
  }

  /** Everything a failed search saw is no way to a match, and nothing leads out of it. */
  lemma {:induction false} NoWayThrough(
    g: Graph, matches: Node -> bool, before: set<Node>, after: set<Node>, start: Link, path: seq<Node>, i: nat)
    requires Exhausted(g, matches, before, after)
    requires IsWay(g, matches, start, before, path) && i < |path| && path[i] in after
    ensures false
    decreases |path|
  {
    if i > 0 {
      RestIsAWay(g, matches, start, before, path);
      NoWayThrough(g, matches, before, after, To(path[1]), path[1..], i - 1);
    } else {
      assert path[0] in path && path[0] in after - before;
      if |path| > 1 {
        RestIsAWay(g, matches, start, before, path);
        NoWayThrough(g, matches, before, after, To(path[1]), path[1..], 0);
      }
    }
  }

  lemma RestIsAWay(g: Graph, matches: Node -> bool, start: Link, avoided: set<Node>, path: seq<Node>)
    requires IsWay(g, matches, start, avoided, path) && |path| > 1
    ensures IsWay(g, matches, To(path[1]), avoided, path[1..])
    ensures g[path[0]].cause == To(path[1]) || g[path[0]].dataCause == To(path[1])
  {
    var rest := path[1..];
    assert forall m <- rest :: m in path;
    assert rest[0] == path[1] && rest[|rest| - 1] == path[|path| - 1];
    assert IsPath(g, g[path[0]].cause, rest) || IsPath(g, g[path[0]].dataCause, rest);
  }

  /** The first way through `cause` is the first of all. */
  lemma FirstByCause(g: Graph, matches: Node -> bool, n: Node, avoided: set<Node>, p: seq<Node>)
    requires n in g && n !in avoided && !matches(n) && IsFirst(g, matches, g[n].cause, avoided + {n}, p)
    ensures IsFirst(g, matches, To(n), avoided, [n] + p)
  {
    var longer := [n] + p;
    assert longer[1..] == p;
    WayFrom(g, matches, n, g[n].cause, avoided, p);
    forall q | IsWay(g, matches, To(n), avoided, q)
      ensures Precedes(g, longer, q)
    {
      WayOn(g, matches, n, avoided, q);
      assert q[1..][0] == q[1];
      if p[0] == q[1] {
        assert IsWay(g, matches, g[n].cause, avoided + {n}, q[1..]);
      }
    }
  }

  /** With no way through `cause`, the first through `data.cause` is, and it meets nothing that `cause` led to. */
  lemma FirstByDataCause(
    g: Graph, matches: Node -> bool, n: Node, avoided: set<Node>, after: set<Node>, p: seq<Node>)
    requires n in g && n !in avoided && !matches(n)
    requires Exhausted(g, matches, avoided + {n}, after) && Inside(after, g[n].cause)
    requires IsFirst(g, matches, g[n].dataCause, after, p)
    ensures IsFirst(g, matches, To(n), avoided, [n] + p)
  {
    var longer, before := [n] + p, avoided + {n};
    assert longer[1..] == p;
    WayFrom(g, matches, n, g[n].dataCause, avoided, p);
    forall q | IsWay(g, matches, To(n), avoided, q)
      ensures Precedes(g, longer, q)
    {
      WayOn(g, matches, n, avoided, q);
      NotByCause(g, matches, g[n].cause, before, after, q[1..]);
      StaysOutside(g, matches, g[n].dataCause, before, after, q[1..]);
      assert q[1..][0] == q[1];
    }
  }

  lemma NotByCause(g: Graph, matches: Node -> bool, start: Link, before: set<Node>, after: set<Node>, q: seq<Node>)
    requires Exhausted(g, matches, before, after) && Inside(after, start)
    ensures !IsWay(g, matches, start, before, q)
  {
    if IsWay(g, matches, start, before, q) {
      NoWayThrough(g, matches, before, after, start, q, 0);
    }
  }

  lemma StaysOutside(g: Graph, matches: Node -> bool, start: Link, before: set<Node>, after: set<Node>, q: seq<Node>)
    requires Exhausted(g, matches, before, after)
    ensures IsWay(g, matches, start, before, q) ==> IsWay(g, matches, start, after, q)
  {
    if IsWay(g, matches, start, before, q) {
      if i: nat :| i < |q| && q[i] in after {
        NoWayThrough(g, matches, before, after, start, q, i);
      }
    }
  }

  // ----- The search -----

  class Seen {
    var nodes: set<Node>

    constructor ()
      ensures nodes == {}
    {
      nodes := {};
    }
  }

  method FindDeep(g: Graph, matches: Node -> bool, err: Link, seen: Seen)
    returns (found: Option<Node>, ghost path: seq<Node>)
    requires Closed(g) && Within(g, err) && seen.nodes <= g.Keys
    modifies seen
    ensures old(seen.nodes) <= seen.nodes <= g.Keys
    ensures found.Some? ==> IsFirst(g, matches, err, old(seen.nodes), path) && path[|path| - 1] == found.value
    ensures found.None? ==> Exhausted(g, matches, old(seen.nodes), seen.nodes) && Inside(seen.nodes, err)
    decreases g.Keys - seen.nodes
  {
    if err.Nothing? || err.node in seen.nodes {
      return None, [];
    }
    ghost var before := seen.nodes;
    seen.nodes := seen.nodes + {err.node};
    if matches(err.node) {
      return Some(err.node), [err.node];
    }
    found, path := FindDeep(g, matches, g[err.node].cause, seen);
    if found.Some? {
      FirstByCause(g, matches, err.node, before, path);
      path := [err.node] + path;
      return;
    }
    ghost var after := seen.nodes;
    found, path := FindDeep(g, matches, g[err.node].dataCause, seen);
    if found.Some? {
      FirstByDataCause(g, matches, err.node, before, after, path);
      path := [err.node] + path;
    }
  }

  /**
   * Terminates on any finite graph, loops and all; finds a matching error exactly when one is reachable; and the one it
   * finds is the first, depth first, `cause` before `data.cause`.
   */
  method FindNested(g: Graph, matches: Node -> bool, err: Link) returns (found: Option<Node>)
    requires Closed(g) && Within(g, err)
    ensures found.Some? ==> exists path :: IsFirst(g, matches, err, {}, path) && path[|path| - 1] == found.value
    ensures found.Some? ==> matches(found.value) && Reaches(g, err, found.value)
    ensures found.Some? <==> exists n :: Reaches(g, err, n) && matches(n)
  {
    var seen := new Seen();
    ghost var path;
    found, path := FindDeep(g, matches, err, seen);
    if found.None? {
      forall n | Reaches(g, err, n)
        ensures !matches(n)
      {
        var way :| IsPath(g, err, way) && way[|way| - 1] == n;
        ClosedHoldsPath(g, seen.nodes, err, way);
      }
    }
  }
}
