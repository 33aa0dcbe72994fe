/** Paths, acyclicity and ranks of finite directed graphs given as edge sets. */
module Graphs {

  type Edges = set<(nat, nat)>

  ghost predicate IsPath(edges: Edges, p: seq<nat>) {
    |p| > 0 && forall i :: 0 <= i < |p| - 1 ==> (p[i], p[i + 1]) in edges
  }

  ghost predicate Connects(edges: Edges, p: seq<nat>, a: nat, b: nat) {
    IsPath(edges, p) && p[0] == a && p[|p| - 1] == b
  }

  /** `b` can be reached from `a` along zero or more edges. */
  ghost predicate Connected(edges: Edges, a: nat, b: nat) {
    exists p :: Connects(edges, p, a, b)
  }

  /** No edge leads back to its own start. */
  ghost predicate Acyclic(edges: Edges) {
    forall a, b :: (a, b) in edges ==> !Connected(edges, b, a)
  }

  ghost predicate Within(edges: Edges, n: nat) {
    forall a, b :: (a, b) in edges ==> a < n && b < n
  }

  lemma ConnectedRefl(edges: Edges, a: nat)
    ensures Connected(edges, a, a)
  {
    assert Connects(edges, [a], a, a);
  }

  lemma ConnectedTrans(edges: Edges, a: nat, b: nat, c: nat)
    requires Connected(edges, a, b) && Connected(edges, b, c)
    ensures Connected(edges, a, c)
  {
    var p :| Connects(edges, p, a, b);
    var q :| Connects(edges, q, b, c);
    var r := p + q[1..];
    forall i | 0 <= i < |r| - 1
      ensures (r[i], r[i + 1]) in edges
    {
      if i == |p| - 1 {
        assert r[i] == q[0] && r[i + 1] == q[1];
      } else if i >= |p| {
        assert r[i] == q[i - |p| + 1] && r[i + 1] == q[i - |p| + 2];
      }
    }
    assert Connects(edges, r, a, c);
  }

  lemma ConnectedEdge(edges: Edges, a: nat, b: nat)
    requires (a, b) in edges
    ensures Connected(edges, a, b)
  {
    assert Connects(edges, [a, b], a, b);
  }

  lemma ConnectedMonotone(edges: Edges, more: Edges, a: nat, b: nat)
    requires edges <= more && Connected(edges, a, b)
    ensures Connected(more, a, b)
  {
    var p :| Connects(edges, p, a, b);
    assert Connects(more, p, a, b);
  }

  /** A path that uses the new edge splits, in the old graph, into one up to it and one after it. */
  lemma {:induction false} SplitAtNewEdge(edges: Edges, from: nat, to: nat, p: seq<nat>, a: nat, b: nat)
    requires Connects(edges + {(from, to)}, p, a, b)
    ensures Connected(edges, a, b) || (Connected(edges, a, from) && Connected(edges, to, b))
    decreases |p|
  {
    if |p| == 1 {
      ConnectedRefl(edges, a);
    } else {
      var x := p[1];
      assert Connects(edges + {(from, to)}, p[1..], x, b);
      SplitAtNewEdge(edges, from, to, p[1..], x, b);
      if (a, x) in edges {
        ConnectedEdge(edges, a, x);
        if Connected(edges, x, b) {
          ConnectedTrans(edges, a, x, b);
        } else {
          ConnectedTrans(edges, a, x, from);
        }
      } else {
        assert (p[0], p[1]) in edges + {(from, to)};
        ConnectedRefl(edges, a);
      }
    }
  }

  /** Linking `from -> to` keeps the graph acyclic as long as `to` does not already reach `from`. */
  lemma AddEdgeKeepsAcyclic(edges: Edges, from: nat, to: nat)
    requires Acyclic(edges) && !Connected(edges, to, from)
    ensures Acyclic(edges + {(from, to)})
  {
    var more := edges + {(from, to)};
    forall a, b | (a, b) in more
      ensures !Connected(more, b, a)
    {
      if Connected(more, b, a) {
        var p :| Connects(more, p, b, a);
        SplitAtNewEdge(edges, from, to, p, b, a);
        if (a, b) in edges {
          assert Connected(edges, b, from) && Connected(edges, to, a);
          ConnectedEdge(edges, a, b);
          ConnectedTrans(edges, to, a, b);
          ConnectedTrans(edges, to, b, from);
        }
      }
    }
  }

  /** Everything that reaches `x`, itself included. */
  ghost function Above(edges: Edges, n: nat, x: nat): set<nat> {
    set y: nat | y < n && Connected(edges, y, x)
  }

  /** In an acyclic graph the number of nodes above strictly grows along every edge. */
  lemma RankGrows(edges: Edges, n: nat, a: nat, b: nat)
    requires Acyclic(edges) && Within(edges, n) && (a, b) in edges
    ensures |Above(edges, n, a)| < |Above(edges, n, b)|
  {
    var upper, lower := Above(edges, n, a), Above(edges, n, b);
    ConnectedEdge(edges, a, b);
    forall y | y in upper
      ensures y in lower
    {
      ConnectedTrans(edges, y, a, b);
    }
    ConnectedRefl(edges, b);
    assert b in lower - upper;
    SubsetSmaller(upper, lower, b);
  }

  lemma SubsetSmaller<T>(small: set<T>, big: set<T>, extra: T)
    requires small <= big && extra in big && extra !in small
    ensures |small| < |big|
  {
    assert big == small + (big - small);
    assert extra in big - small;
  }

  /** The node names `0 .. n - 1`. */
  ghost function Upto(n: nat): (all: set<nat>)
    ensures forall x: int :: x in all <==> 0 <= x < n
    ensures |all| == n
  {
    if n == 0 then {} else Upto(n - 1) + {n - 1}
  }

  ghost predicate HasParent(edges: Edges, x: nat) {
    exists p :: (p, x) in edges
  }

  /** Every node of a finite acyclic graph hangs below some node without parents. */
  lemma {:induction false} SomeTopAbove(edges: Edges, n: nat, x: nat) returns (top: nat)
    requires Acyclic(edges) && Within(edges, n) && x < n
    ensures top < n && !HasParent(edges, top) && Connected(edges, top, x)
    decreases |Above(edges, n, x)|
  {
    if HasParent(edges, x) {
      var p :| (p, x) in edges;
      RankGrows(edges, n, p, x);
      top := SomeTopAbove(edges, n, p);
      ConnectedEdge(edges, p, x);
      ConnectedTrans(edges, top, p, x);
    } else {
      top := x;
      ConnectedRefl(edges, x);
    }
  }

  // ----- adjacency lists ---------------------------------------------------------------------

  ghost predicate Closed(adj: seq<seq<nat>>) {
    forall a, i :: 0 <= a < |adj| && 0 <= i < |adj[a]| ==> adj[a][i] < |adj|
  }

  ghost function EdgesOf(adj: seq<seq<nat>>): Edges {
    set a: nat, i: nat | a < |adj| && i < |adj[a]| :: (a, adj[a][i])
  }

  lemma EdgeIffListed(adj: seq<seq<nat>>, a: nat, b: nat)
    ensures (a, b) in EdgesOf(adj) <==> a < |adj| && b in adj[a]
  {
    if a < |adj| && b in adj[a] {
      var i :| 0 <= i < |adj[a]| && adj[a][i] == b;
      assert (a, adj[a][i]) in EdgesOf(adj);
    }
  }

  /** A set that no edge leaves contains everything reachable from its members. */
  lemma {:induction false} StaysInside(edges: Edges, inside: set<nat>, p: seq<nat>, a: nat, b: nat)
    requires forall x, y :: x in inside && (x, y) in edges ==> y in inside
    requires a in inside && Connects(edges, p, a, b)
    ensures b in inside
    decreases |p|
  {
    if |p| > 1 {
      assert (p[0], p[1]) in edges;
      assert Connects(edges, p[1..], p[1], b);
      StaysInside(edges, inside, p[1..], p[1], b);
    }
  }
}
