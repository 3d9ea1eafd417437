/** The service dependency graph shared by both compose start-order
    computations: each known service maps to the names it depends on, in the
    order they are listed. A name that is depended on but not defined is a
    node without outgoing edges. */
module DependencyGraph {
  import opened Common

  type Graph = map<string, seq<string>>

  /** `s` is a defined service that lists `d` among its dependencies. */
  predicate Edge(g: Graph, s: string, d: string)
  {
    s in g && d in g[s]
  }

  /** Consecutive names are linked by dependency edges. */
  ghost predicate Walk(g: Graph, path: seq<string>)
  {
    forall i :: 0 <= i < |path| - 1 ==> Edge(g, path[i], path[i + 1])
  }

  /** No walk of at least one edge comes back to where it started. */
  ghost predicate Acyclic(g: Graph)
  {
    forall path :: |path| >= 2 && Walk(g, path) ==> path[0] != path[|path| - 1]
  }

  /** Every name the graph mentions: the services and their dependencies. */
  function Names(g: Graph): set<string>
  {
    g.Keys + set s, d | s in g && d in g[s] :: d
  }

  lemma DependencyIsName(g: Graph, s: string, d: string)
    requires Edge(g, s, d)
    ensures s in Names(g) && d in Names(g)
  {
  }

  /** Every dependency of a listed name is listed earlier. */
  ghost predicate DepsBefore(g: Graph, order: seq<string>)
  {
    forall i :: 0 <= i < |order| ==> forall d :: Edge(g, order[i], d) ==> d in order[..i]
  }

  /** The first position of `x`. */
  function Pos(s: seq<string>, x: string): (i: nat)
    requires x in s
    ensures i < |s| && s[i] == x
    ensures forall j :: 0 <= j < |s| && s[j] == x ==> i <= j
  {
    if s[0] == x then 0 else 1 + Pos(s[1..], x)
  }

  /** A dependency sits strictly before its dependent in such an order. */
  lemma StepDown(g: Graph, order: seq<string>, s: string, d: string)
    requires DepsBefore(g, order) && forall x :: x in g ==> x in order
    requires Edge(g, s, d)
    ensures s in order && d in order && Pos(order, d) < Pos(order, s)
  {
    var p := Pos(order, s);
    assert Edge(g, order[p], d);
    assert d in order[..p];
    var j :| 0 <= j < p && order[..p][j] == d;
    assert order[j] == d;
  }

  /** Along a walk, positions in such an order strictly decrease. */
  lemma {:induction false} DescendAlong(g: Graph, order: seq<string>, path: seq<string>, k: nat)
    requires DepsBefore(g, order) && forall x :: x in g ==> x in order
    requires Walk(g, path) && 1 <= k < |path|
    ensures path[0] in order && path[k] in order && Pos(order, path[k]) < Pos(order, path[0])
    decreases k
  {
    StepDown(g, order, path[k - 1], path[k]);
    if k > 1 {
      DescendAlong(g, order, path, k - 1);
    }
  }

  /** An order that lists every service after all its dependencies
      witnesses that the graph has no cycle. */
  lemma OrderedIsAcyclic(g: Graph, order: seq<string>)
    requires DepsBefore(g, order) && forall x :: x in g ==> x in order
    ensures Acyclic(g)
  {
    forall path | |path| >= 2 && Walk(g, path) ensures path[0] != path[|path| - 1] {
      DescendAlong(g, order, path, |path| - 1);
    }
  }

  /** A walk that returns to one of its own names closes a cycle. */
  lemma CycleFromWalk(g: Graph, stack: seq<string>, j: nat, last: string)
    requires Walk(g, stack) && 0 <= j < |stack| && Edge(g, stack[|stack| - 1], last) && stack[j] == last
    ensures !Acyclic(g)
  {
    var cyc := stack[j..] + [last];
    assert |cyc| >= 2 && cyc[0] == cyc[|cyc| - 1];
    forall i | 0 <= i < |cyc| - 1 ensures Edge(g, cyc[i], cyc[i + 1]) {
      if i < |cyc| - 2 {
        assert cyc[i] == stack[j + i] && cyc[i + 1] == stack[j + i + 1];
      }
    }
    assert Walk(g, cyc);
  }

  /** Extending a walk by an edge keeps it a walk. */
  lemma WalkExtend(g: Graph, stack: seq<string>, next: string)
    requires Walk(g, stack) && (|stack| > 0 ==> Edge(g, stack[|stack| - 1], next))
    ensures Walk(g, stack + [next])
  {
    var w := stack + [next];
    forall i | 0 <= i < |w| - 1 ensures Edge(g, w[i], w[i + 1]) {
      if i < |stack| - 1 {
        assert w[i] == stack[i] && w[i + 1] == stack[i + 1];
      }
    }
  }

  lemma SmallerCard(a: set<string>, b: set<string>)
    requires a < b
    ensures |a| < |b|
  {
    assert b == a + (b - a) && a !! (b - a);
    assert b - a != {};
  }

  lemma SubsetCard(a: set<string>, b: set<string>)
    requires a <= b
    ensures |a| <= |b|
  {
    if a != b {
      SmallerCard(a, b);
    }
  }

  /** Appending a name whose dependencies are all listed keeps every
      dependency before its dependent. */
  lemma DepsBeforeAppend(g: Graph, o: seq<string>, service: string)
    requires DepsBefore(g, o) && forall d :: Edge(g, service, d) ==> d in o
    ensures DepsBefore(g, o + [service])
  {
    var o' := o + [service];
    forall k | 0 <= k < |o'| ensures forall d :: Edge(g, o'[k], d) ==> d in o'[..k] {
      if k < |o| {
        assert o'[k] == o[k] && o'[..k] == o[..k];
      } else {
        assert o'[..k] == o;
      }
    }
  }

  /** The last step of a depth-first sort: once all of a service's
      dependencies are placed, placing it keeps the order sound. */
  lemma PlaceAfterDeps(g: Graph, o: seq<string>, service: string, deps: seq<string>)
    requires deps == (if service in g then g[service] else [])
    requires forall k :: 0 <= k < |deps| ==> deps[k] in o
    requires DepsBefore(g, o) && Distinct(o) && service !in o
    ensures DepsBefore(g, o + [service]) && Distinct(o + [service])
    ensures Elems(o + [service]) == Elems(o) + {service}
  {
    forall d | Edge(g, service, d) ensures d in o {
      var k :| 0 <= k < |deps| && deps[k] == d;
    }
    DepsBeforeAppend(g, o, service);
    ElemsAppend(o, service);
  }

}
