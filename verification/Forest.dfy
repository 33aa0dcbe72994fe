/** Resolving `dep` names into the dependency graph: unknown and cycle-forming edges are dropped. */
module Forest {
  import opened Graphs
  import opened Lists

  /** An object as far as linking is concerned: its name and its distinct `dep` names, in order. */
  datatype Obj = Obj(name: string, deps: seq<string>)

  datatype DepWarning = UnknownDep(child: nat, dep: string) | CycleDep(child: nat, dep: string)

  ghost predicate Ascending(s: seq<nat>) {
    forall i, j :: 0 <= i < j < |s| ==> s[i] < s[j]
  }

  /** What the parser hands over: one object per name, no `dep` repeated within an object. */
  ghost predicate WellNamed(objs: seq<Obj>) {
    && (forall i, j :: 0 <= i < j < |objs| ==> objs[i].name != objs[j].name)
    && (forall i :: 0 <= i < |objs| ==> Distinct(objs[i].deps))
  }

  ghost predicate IsIndex(objs: seq<Obj>, index: map<string, nat>) {
    && (forall i :: 0 <= i < |objs| ==> objs[i].name in index && index[objs[i].name] == i)
    && (forall d :: d in index ==> index[d] < |objs| && objs[index[d]].name == d)
  }

  /** The `(child, dep name)` pairs of the first `c` objects and the first `j` deps of object `c`. */
  ghost function Asked(objs: seq<Obj>, c: nat, j: nat): set<(nat, string)>
    requires c <= |objs| && j <= (if c < |objs| then |objs[c].deps| else 0)
  {
    (set x: nat, k: nat | x < c && k < |objs[x].deps| :: (x, objs[x].deps[k]))
    + (set k: nat | k < j :: (c, objs[c].deps[k]))
  }

  /** The edges `parent -> child` that such pairs name. */
  ghost function EdgesAsked(objs: seq<Obj>, asked: set<(nat, string)>): Edges {
    set p: nat, c: nat | p < |objs| && c < |objs| && (c, objs[p].name) in asked :: (p, c)
  }

  /** Every edge between two declared objects that some `dep` names. */
  ghost function Known(objs: seq<Obj>): Edges {
    EdgesAsked(objs, Asked(objs, |objs|, 0))
  }

  /** True iff `target` is `start` or below it: depth-first search with an explicit stack. */
  method Reaches(children: seq<seq<nat>>, start: nat, target: nat) returns (found: bool)
    requires Closed(children) && start < |children|
    ensures found <==> Connected(EdgesOf(children), start, target)
  {
    ghost var edges := EdgesOf(children);
    var stack: seq<nat> := [start];
    var seen: set<nat> := {};
    ghost var all := Upto(|children|);
    ConnectedRefl(edges, start);
    while stack != []
      invariant forall i :: 0 <= i < |stack| ==> stack[i] < |children| && Connected(edges, start, stack[i])
      invariant seen <= all && target !in seen
      invariant start in seen || start in stack
      invariant forall x, y :: x in seen && (x, y) in edges ==> y in seen || y in stack
      decreases |all - seen|, |stack|
    {
      var node := stack[|stack| - 1];
      ghost var before := stack;
      stack := stack[..|stack| - 1];
      assert before == stack + [node];
      if node == target {
        return true;
      }
      if node !in seen {
        SubsetSmaller(all - (seen + {node}), all - seen, node);
        seen := seen + {node};
        forall i | 0 <= i < |children[node]|
          ensures Connected(edges, start, children[node][i])
        {
          EdgeIffListed(children, node, children[node][i]);
          ConnectedEdge(edges, node, children[node][i]);
          ConnectedTrans(edges, start, node, children[node][i]);
        }
        forall y | (node, y) in edges
          ensures y in children[node]
        {
          EdgeIffListed(children, node, y);
        }
        stack := stack + children[node];
      }
    }
    if Connected(edges, start, target) {
      var p :| Connects(edges, p, start, target);
      StaysInside(edges, seen, p, start, target);
    }
    return false;
  }

  /** A maximal acyclic part of the edges asked for so far; children stand in declaration order. */
  ghost predicate Built(objs: seq<Obj>, children: seq<seq<nat>>, asked: set<(nat, string)>) {
    var edges := EdgesOf(children);
    && |children| == |objs|
    && Closed(children)
    && (forall p :: 0 <= p < |children| ==> Ascending(children[p]))
    && edges <= EdgesAsked(objs, asked)
    && Acyclic(edges)
    && (forall p, c :: (p, c) in EdgesAsked(objs, asked) && (p, c) !in edges ==> Connected(edges, c, p))
  }

  ghost predicate Dropped(objs: seq<Obj>, children: seq<seq<nat>>, c: nat, dep: string) {
    exists p: nat :: p < |objs| && objs[p].name == dep && (p, c) !in EdgesOf(children)
  }

  ghost predicate Named(objs: seq<Obj>, dep: string) {
    exists p: nat :: p < |objs| && objs[p].name == dep
  }

  /** The warnings name exactly the unknown deps and exactly the deps dropped as cycles. */
  ghost predicate Warned(objs: seq<Obj>, children: seq<seq<nat>>, asked: set<(nat, string)>, warnings: seq<DepWarning>) {
    && (forall c: nat, d :: UnknownDep(c, d) in warnings <==> (c, d) in asked && !Named(objs, d))
    && (forall c: nat, d :: CycleDep(c, d) in warnings <==> (c, d) in asked && Dropped(objs, children, c, d))
  }

  lemma AppendedEdges(children: seq<seq<nat>>, p: nat, c: nat)
    requires p < |children|
    ensures EdgesOf(children[p := children[p] + [c]]) == EdgesOf(children) + {(p, c)}
  {
    var more := children[p := children[p] + [c]];
    forall a: nat, b: nat
      ensures (a, b) in EdgesOf(more) <==> (a, b) in EdgesOf(children) + {(p, c)}
    {
      EdgeIffListed(children, a, b);
      EdgeIffListed(more, a, b);
    }
  }

  lemma OneMoreAsked(objs: seq<Obj>, asked: set<(nat, string)>, c: nat, dep: string)
    requires c < |objs| && WellNamed(objs)
    ensures !Named(objs, dep) ==> EdgesAsked(objs, asked + {(c, dep)}) == EdgesAsked(objs, asked)
    ensures forall p: nat :: p < |objs| && objs[p].name == dep ==>
              EdgesAsked(objs, asked + {(c, dep)}) == EdgesAsked(objs, asked) + {(p, c)}
  {
  }

  /** Objects up to `c` are the only children so far. */
  ghost predicate NoneBeyond(edges: Edges, c: nat) {
    forall p: nat, x: nat :: (p, x) in edges ==> x <= c
  }

  lemma AppendAscends(children: seq<seq<nat>>, p: nat, c: nat)
    requires p < |children| && Ascending(children[p])
    requires NoneBeyond(EdgesOf(children), c) && (p, c) !in EdgesOf(children)
    ensures Ascending(children[p] + [c])
  {
    forall i | 0 <= i < |children[p]|
      ensures children[p][i] < c
    {
      EdgeIffListed(children, p, children[p][i]);
    }
  }

  /** Resolves one `dep` of object `c`. */
  method LinkDep(objs: seq<Obj>, index: map<string, nat>, children: seq<seq<nat>>, warnings: seq<DepWarning>,
                 c: nat, dep: string, ghost asked: set<(nat, string)>)
    returns (children': seq<seq<nat>>, warnings': seq<DepWarning>, linked: bool)
    requires c < |objs| && WellNamed(objs) && IsIndex(objs, index)
    requires Built(objs, children, asked) && Warned(objs, children, asked, warnings)
    requires (c, dep) !in asked && NoneBeyond(EdgesOf(children), c)
    ensures Built(objs, children', asked + {(c, dep)}) && Warned(objs, children', asked + {(c, dep)}, warnings')
    ensures !linked ==> children' == children
    ensures linked ==> exists p: nat :: EdgesOf(children') == EdgesOf(children) + {(p, c)}
  {
    OneMoreAsked(objs, asked, c, dep);
    children', warnings', linked := children, warnings, false;
    if dep !in index {
      warnings' := warnings + [UnknownDep(c, dep)];
    } else {
      var parent := index[dep];
      var cycle := Reaches(children, c, parent);
      if cycle {
        assert (parent, c) !in EdgesOf(children);
        warnings' := warnings + [CycleDep(c, dep)];
      } else {
        AppendedEdges(children, parent, c);
        AppendAscends(children, parent, c);
        AddEdgeKeepsAcyclic(EdgesOf(children), parent, c);
        children' := children[parent := children[parent] + [c]];
        linked := true;
        ConnectedKept(objs, asked, EdgesOf(children), parent, c);
      }
    }
  }

  lemma ConnectedKept(objs: seq<Obj>, asked: set<(nat, string)>, edges: Edges, parent: nat, child: nat)
    requires forall p, c :: (p, c) in EdgesAsked(objs, asked) && (p, c) !in edges ==> Connected(edges, c, p)
    ensures forall p, c :: (p, c) in EdgesAsked(objs, asked) && (p, c) !in edges ==>
              Connected(edges + {(parent, child)}, c, p)
  {
    forall p, c | (p, c) in EdgesAsked(objs, asked) && (p, c) !in edges
      ensures Connected(edges + {(parent, child)}, c, p)
    {
      ConnectedMonotone(edges, edges + {(parent, child)}, c, p);
    }
  }

  lemma AskedAdvances(objs: seq<Obj>, c: nat, j: nat)
    requires WellNamed(objs) && c < |objs| && j < |objs[c].deps|
    ensures (c, objs[c].deps[j]) !in Asked(objs, c, j)
    ensures Asked(objs, c, j + 1) == Asked(objs, c, j) + {(c, objs[c].deps[j])}
  {
  }

  lemma AskedCarriesOver(objs: seq<Obj>, c: nat)
    requires c < |objs|
    ensures Asked(objs, c, |objs[c].deps|) == Asked(objs, c + 1, 0)
  {
  }

  /** The edges into `c` are new; all others stay. */
  ghost predicate OnlyInto(before: Edges, after: Edges, c: nat) {
    forall p: nat, x: nat :: x != c ==> ((p, x) in after <==> (p, x) in before)
  }

  lemma OthersKeepParents(before: Edges, after: Edges, c: nat)
    requires OnlyInto(before, after, c)
    ensures forall x: nat :: x != c ==> (HasParent(after, x) <==> HasParent(before, x))
  {
    forall x: nat | x != c
      ensures HasParent(after, x) <==> HasParent(before, x)
    {
      if HasParent(before, x) {
        var p :| (p, x) in before;
        assert (p, x) in after;
      }
    }
  }

  ghost predicate Progress(start: Edges, edges: Edges, c: nat, linked: bool) {
    OnlyInto(start, edges, c) && (linked <==> HasParent(edges, c))
  }

  lemma ProgressStep(start: Edges, before: Edges, after: Edges, c: nat, linked: bool, one: bool)
    requires Progress(start, before, c, linked)
    requires if one then exists p: nat :: after == before + {(p, c)} else after == before
    ensures Progress(start, after, c, linked || one)
  {
    if one {
      var p: nat :| after == before + {(p, c)};
      assert (p, c) in after;
    }
  }

  lemma ProgressMeans(start: Edges, edges: Edges, c: nat, linked: bool)
    requires Progress(start, edges, c, linked)
    ensures OnlyInto(start, edges, c) && (linked <==> HasParent(edges, c))
  {
  }

  lemma ProgressStarts(objs: seq<Obj>, children: seq<seq<nat>>, c: nat)
    requires c < |objs| && Built(objs, children, Asked(objs, c, 0))
    ensures Progress(EdgesOf(children), EdgesOf(children), c, false)
  {
  }

  lemma AskedBounds(objs: seq<Obj>, children: seq<seq<nat>>, c: nat, j: nat)
    requires c < |objs| && j <= |objs[c].deps| && Built(objs, children, Asked(objs, c, j))
    ensures NoneBeyond(EdgesOf(children), c)
  {
  }

  /** Resolves all deps of object `c`; `linked` says whether it found a parent. */
  method LinkObject(objs: seq<Obj>, index: map<string, nat>, children: seq<seq<nat>>, warnings: seq<DepWarning>, c: nat)
    returns (children': seq<seq<nat>>, warnings': seq<DepWarning>, linked: bool)
    requires c < |objs| && WellNamed(objs) && IsIndex(objs, index)
    requires Built(objs, children, Asked(objs, c, 0)) && Warned(objs, children, Asked(objs, c, 0), warnings)
    ensures Built(objs, children', Asked(objs, c + 1, 0)) && Warned(objs, children', Asked(objs, c + 1, 0), warnings')
    ensures OnlyInto(EdgesOf(children), EdgesOf(children'), c)
    ensures linked <==> HasParent(EdgesOf(children'), c)
  {
    hide *;
    children', warnings', linked := children, warnings, false;
    ghost var edges := EdgesOf(children);
    ProgressStarts(objs, children, c);
    for j := 0 to |objs[c].deps|
      invariant Built(objs, children', Asked(objs, c, j)) && Warned(objs, children', Asked(objs, c, j), warnings')
      invariant Progress(edges, EdgesOf(children'), c, linked)
    {
      AskedAdvances(objs, c, j);
      AskedBounds(objs, children', c, j);
      ghost var before := EdgesOf(children');
      var one: bool;
      children', warnings', one := LinkDep(objs, index, children', warnings', c, objs[c].deps[j], Asked(objs, c, j));
      ProgressStep(edges, before, EdgesOf(children'), c, linked, one);
      linked := linked || one;
    }
    AskedCarriesOver(objs, c);
    ProgressMeans(edges, EdgesOf(children'), c, linked);
  }

  ghost predicate IsRoots(edges: Edges, roots: seq<nat>, n: nat) {
    Ascending(roots) && forall x: nat :: x in roots <==> x < n && !HasParent(edges, x)
  }

  /** Object `c` joins the roots iff it found no parent. */
  lemma RootsExtend(before: Edges, after: Edges, roots: seq<nat>, c: nat)
    requires IsRoots(before, roots, c) && OnlyInto(before, after, c)
    ensures IsRoots(after, if HasParent(after, c) then roots else roots + [c], c + 1)
  {
    OthersKeepParents(before, after, c);
    assert forall i :: 0 <= i < |roots| ==> roots[i] in roots;
  }

  /** Some root stands above `x`. */
  ghost predicate BelowRoot(edges: Edges, roots: seq<nat>, x: nat) {
    exists r :: r in roots && Connected(edges, r, x)
  }

  lemma KeepsAllItCan(objs: seq<Obj>, children: seq<seq<nat>>)
    requires Built(objs, children, Asked(objs, |objs|, 0))
    ensures var edges := EdgesOf(children);
            && (forall p, c :: (p, c) in Known(objs) - edges ==> !Acyclic(edges + {(p, c)}))
            && (Acyclic(Known(objs)) ==> edges == Known(objs))
  {
    var edges := EdgesOf(children);
    forall p, c | (p, c) in Known(objs) - edges
      ensures !Acyclic(edges + {(p, c)}) && !Acyclic(Known(objs))
    {
      ConnectedMonotone(edges, edges + {(p, c)}, c, p);
      ConnectedMonotone(edges, Known(objs), c, p);
    }
    assert Known(objs) == edges + (Known(objs) - edges);
  }

  lemma BuiltMeans(objs: seq<Obj>, children: seq<seq<nat>>, asked: set<(nat, string)>)
    requires Built(objs, children, asked)
    ensures |children| == |objs| && Closed(children) && Acyclic(EdgesOf(children)) && Within(EdgesOf(children), |objs|)
    ensures forall p :: 0 <= p < |children| ==> Ascending(children[p])
    ensures EdgesOf(children) <= EdgesAsked(objs, asked)
  {
  }

  lemma AllBelowRoots(edges: Edges, roots: seq<nat>, n: nat)
    requires Acyclic(edges) && Within(edges, n) && IsRoots(edges, roots, n)
    ensures forall x: nat :: x < n ==> BelowRoot(edges, roots, x)
  {
    forall x: nat | x < n
      ensures BelowRoot(edges, roots, x)
    {
      var top := SomeTopAbove(edges, n, x);
    }
  }

  function NoLinks(objs: seq<Obj>): seq<seq<nat>> {
    seq(|objs|, _ => [])
  }

  lemma KnownIs(objs: seq<Obj>)
    ensures Known(objs) == EdgesAsked(objs, Asked(objs, |objs|, 0))
  {
  }

  lemma StartsEmpty(objs: seq<Obj>)
    ensures var none := NoLinks(objs);
            && Built(objs, none, Asked(objs, 0, 0))
            && Warned(objs, none, Asked(objs, 0, 0), [])
            && IsRoots(EdgesOf(none), [], 0)
  {
    assert EdgesOf(NoLinks(objs)) == {};
  }

  /** For any objects and any `dep` lists: an acyclic graph that keeps every edge it can, all of them
      when they are consistent, whose roots are the parentless objects and reach every object. */
  method BuildForest(objs: seq<Obj>, index: map<string, nat>)
    returns (children: seq<seq<nat>>, roots: seq<nat>, warnings: seq<DepWarning>)
    requires WellNamed(objs) && IsIndex(objs, index)
    ensures |children| == |objs| && Closed(children) && Acyclic(EdgesOf(children))
    ensures forall p :: 0 <= p < |children| ==> Ascending(children[p])
    ensures EdgesOf(children) <= Known(objs)
    ensures forall p, c :: (p, c) in Known(objs) - EdgesOf(children) ==> !Acyclic(EdgesOf(children) + {(p, c)})
    ensures Acyclic(Known(objs)) ==> EdgesOf(children) == Known(objs)
    ensures IsRoots(EdgesOf(children), roots, |objs|)
    ensures forall x: nat :: x < |objs| ==> BelowRoot(EdgesOf(children), roots, x)
    ensures Warned(objs, children, Asked(objs, |objs|, 0), warnings)
  {
    hide *;
    children, roots, warnings := NoLinks(objs), [], [];
    StartsEmpty(objs);
    for c := 0 to |objs|
      invariant Built(objs, children, Asked(objs, c, 0)) && Warned(objs, children, Asked(objs, c, 0), warnings)
      invariant IsRoots(EdgesOf(children), roots, c)
    {
      ghost var before := EdgesOf(children);
      var linked: bool;
      children, warnings, linked := LinkObject(objs, index, children, warnings, c);
      RootsExtend(before, EdgesOf(children), roots, c);
      if !linked {
        roots := roots + [c];
      }
    }
    KeepsAllItCan(objs, children);
    BuiltMeans(objs, children, Asked(objs, |objs|, 0));
    KnownIs(objs);
    AllBelowRoots(EdgesOf(children), roots, |objs|);
  }
}
