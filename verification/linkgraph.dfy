/** The graph of desired links, from each dependency to its dependents. */
module LinkGraph {
  import opened Links
  import opened Graphs
  import opened GraphSearch

  /** The edges carry the reference by which the dependent names the dependency. */
  type Dependents = Adjacency<string, LinkReference>

  /** `order` lists every vertex once, after all its predecessors. */
  ghost predicate TopologicalOrder(g: Dependents, order: seq<string>) {
    && (forall i, j :: 0 <= i < j < |order| ==> order[i] != order[j])
    && (forall v :: v in g <==> v in order)
    && (forall i, u :: 0 <= i < |order| && Edge(g, u, order[i]) ==> u in order[..i])
  }

  /** Everything reachable from a vertex other than itself comes later. */
  lemma ReachableIsLater(g: Dependents, order: seq<string>, i: nat, v: string)
    requires IsGraph(g) && TopologicalOrder(g, order) && i < |order|
    requires Reaches(g, order[i], v) && v != order[i]
    ensures v !in order[..i]
  {
    var later := set j | i <= j < |order| :: order[j];
    assert forall x, y :: x in later && Edge(g, x, y) ==> y in later by {
      forall x, y | x in later && Edge(g, x, y) ensures y in later {
        var j :| 0 <= j < |order| && order[j] == y;
        assert Edge(g, x, order[j]);
      }
    }
    ReachedWithin(g, order[i], v, later);
  }

  lemma OrderedIsAcyclic(g: Dependents, order: seq<string>)
    requires IsGraph(g) && TopologicalOrder(g, order)
    ensures Acyclic(g)
  {
    forall u, v | Edge(g, u, v) ensures !Reaches(g, v, u) {
      var i :| 0 <= i < |order| && order[i] == v;
      assert Edge(g, u, order[i]);
      assert u in order[..i];
      if Reaches(g, v, u) { ReachableIsLater(g, order, i, u); }
    }
  }

  predicate Ready(g: Dependents, rest: set<string>, v: string) {
    forall u :: u in rest ==> !Edge(g, u, v)
  }

  /** A directed graph that refuses edges closing a cycle. */
  class Graph {
    var adjacency: Dependents

    ghost predicate Valid() reads this {
      IsGraph(adjacency) && Acyclic(adjacency)
    }

    constructor ()
      ensures Valid() && adjacency == map[]
    {
      adjacency := map[];
    }

    method AddVertex(v: string) returns (ok: bool)
      requires Valid()
      modifies this
      ensures Valid()
      ensures ok <==> v !in old(adjacency)
      ensures adjacency == if ok then old(adjacency)[v := map[]] else old(adjacency)
    {
      ok := v !in adjacency;
      if ok {
        ghost var before := adjacency;
        adjacency := adjacency[v := map[]];
        assert forall x, y :: Edge(adjacency, x, y) ==> Edge(before, x, y);
        forall x, y | Edge(adjacency, x, y) ensures !Reaches(adjacency, y, x) {
          if Reaches(adjacency, y, x) { ReachesMonotone(adjacency, before, y, x); }
        }
      }
    }

    method AddEdge(u: string, v: string, data: LinkReference) returns (ok: bool)
      requires Valid()
      modifies this
      ensures Valid()
      ensures ok <==> old(u in adjacency && v in adjacency && !Edge(adjacency, u, v) && !Reaches(adjacency, v, u))
      ensures adjacency == if ok then old(adjacency)[u := old(adjacency)[u][v := data]] else old(adjacency)
    {
      if u !in adjacency || v !in adjacency || Edge(adjacency, u, v) { return false; }
      var orders := AnyOrders(adjacency);
      var completed, visits := BFSWithEdge(adjacency, orders, v, (_, _) => false);
      ghost var last := visits[|visits| - 1];
      assert completed;
      assert u in Vertices(visits) <==> Reaches(adjacency, v, u);
      if exists i :: 0 <= i < |visits| && visits[i].vertex == u { return false; }
      ghost var before := adjacency;
      adjacency := adjacency[u := adjacency[u][v := data]];
      AcyclicWithEdge(before, adjacency, u, v);
      ok := true;
    }

    method TopologicalSort() returns (ok: bool, order: seq<string>)
      requires IsGraph(adjacency)
      ensures ok <==> Acyclic(adjacency)
      ensures ok ==> TopologicalOrder(adjacency, order)
    {
      var rest := adjacency.Keys;
      order := [];
      while rest != {}
        invariant rest <= adjacency.Keys
        invariant forall v :: v in adjacency <==> v in rest || v in order
        invariant forall v :: v in order ==> v !in rest
        invariant forall i, j :: 0 <= i < j < |order| ==> order[i] != order[j]
        invariant forall i, u :: 0 <= i < |order| && Edge(adjacency, u, order[i]) ==> u in order[..i]
        decreases rest
      {
        if !exists v :: v in rest && Ready(adjacency, rest, v) {
          ghost var x :| x in rest;
          if Acyclic(adjacency) {
            ghost var first := SomeVertexIsFirst(adjacency, rest, x);
            assert Ready(adjacency, rest, first);
          }
          return false, order;
        }
        var next :| next in rest && Ready(adjacency, rest, next);
        order := order + [next];
        rest := rest - {next};
      }
      ok := true;
      OrderedIsAcyclic(adjacency, order);
    }
  }

  // ---------- The desired graph ----------

  predicate DependsOn(l: Link, name: string) {
    exists ref :: ref in GetDependencies(l) && ref.name == name
  }

  function RefTo(l: Link, name: string): LinkReference
    requires DependsOn(l, name)
  {
    if GetDependencies(l)[0].name == name then GetDependencies(l)[0] else GetDependencies(l)[1]
  }

  /** The dependencies that are on the node, each with an edge to its dependents. */
  ghost function DesiredGraph(links: Links): Dependents {
    map d | d in links :: (map r | r in links && DependsOn(links[r], d) :: RefTo(links[r], d))
  }

  ghost predicate AllSupported(links: Links) {
    forall r :: r in links ==> Supported(links[r])
  }

  ghost predicate ManagedNamesDistinct(links: Links) {
    forall a, b ::
      a in links && b in links && IsManaged(links[a]) && IsManaged(links[b]) && links[a].linkName == links[b].linkName
      ==> a == b
  }

  /** No link names the same present link as both its master and its device. */
  ghost predicate NoDoubleReference(links: Links) {
    forall r :: r in links ==> SingleReferences(links, links[r])
  }

  ghost predicate SingleReferences(links: Links, l: Link) {
    var deps := GetDependencies(l);
    |deps| == 2 && deps[0].name == deps[1].name ==> deps[0].name !in links
  }

  /** What the agent accepts. */
  ghost predicate Acceptable(links: Links) {
    && AllSupported(links)
    && ManagedNamesDistinct(links)
    && NoDoubleReference(links)
    && Acyclic(DesiredGraph(links))
  }

  predicate NamedBefore(deps: seq<LinkReference>, i: nat, d: string) {
    exists k :: 0 <= k < i && k < |deps| && deps[k].name == d
  }

  /** The desired edge from `d` to `r`, once the links `done` and the first `i` references of `current` are handled. */
  ghost predicate Handled(links: Links, done: set<string>, current: string, i: nat, d: string, r: string) {
    && d in links && r in links
    && ((r in done && DependsOn(links[r], d)) || (r == current && NamedBefore(GetDependencies(links[r]), i, d)))
  }

  ghost predicate Built(g: Dependents, links: Links, done: set<string>, current: string, i: nat) {
    && g.Keys == links.Keys
    && (forall d, r :: Edge(g, d, r) <==> Handled(links, done, current, i, d, r))
    && (forall d, r :: Edge(g, d, r) ==> DependsOn(links[r], d) && g[d][r] == RefTo(links[r], d))
  }

  lemma BuiltIsDesired(g: Dependents, links: Links)
    requires Built(g, links, links.Keys, "", 0)
    ensures g == DesiredGraph(links)
  {
    forall d | d in links ensures g[d] == DesiredGraph(links)[d] {
      forall r ensures r in g[d] <==> r in links && DependsOn(links[r], d) {
        assert Edge(g, d, r) <==> Handled(links, links.Keys, "", 0, d, r);
      }
      forall r | r in g[d] ensures g[d][r] == RefTo(links[r], d) {
        assert Edge(g, d, r);
      }
    }
  }

  lemma BuiltIsSubgraph(g: Dependents, links: Links, done: set<string>, current: string, i: nat)
    requires Built(g, links, done, current, i)
    ensures Subgraph(g, DesiredGraph(links))
  {
    forall d, r | Edge(g, d, r) ensures Edge(DesiredGraph(links), d, r) {
      assert Handled(links, done, current, i, d, r);
    }
  }

  /** Adds every vertex first. */
  method AddVertices(links: Links) returns (g: Graph)
    ensures fresh(g) && g.Valid()
    ensures Built(g.adjacency, links, {}, "", 0)
  {
    g := new Graph();
    var rest := links.Keys;
    while rest != {}
      invariant g.Valid() && fresh(g)
      invariant rest <= links.Keys
      invariant g.adjacency.Keys == links.Keys - rest
      invariant forall d :: d in g.adjacency ==> g.adjacency[d] == map[]
    {
      var name :| name in rest;
      var added := g.AddVertex(name);
      rest := rest - {name};
    }
  }

  method BuildDesiredLinkGraph(links: Links) returns (ok: bool, g: Graph)
    ensures fresh(g) && g.Valid()
    ensures ok <==> AllSupported(links) && NoDoubleReference(links) && Acyclic(DesiredGraph(links))
    ensures ok ==> g.adjacency == DesiredGraph(links)
  {
    g := AddVertices(links);
    var rest := links.Keys;
    ghost var done: set<string> := {};
    while rest != {}
      invariant g.Valid() && fresh(g)
      invariant rest <= links.Keys && done == links.Keys - rest
      invariant Built(g.adjacency, links, done, "", 0)
      invariant forall r :: r in done ==> Supported(links[r]) && SingleReferences(links, links[r])
    {
      var name :| name in rest;
      if !Supported(links[name]) { return false, g; }
      ok := AddDependencies(g, links, name, done);
      if !ok { return false, g; }
      rest, done := rest - {name}, done + {name};
    }
    assert done == links.Keys;
    BuiltIsDesired(g.adjacency, links);
    ok := true;
  }

  /** Adds the edges from the dependencies of one link. */
  method AddDependencies(g: Graph, links: Links, name: string, ghost done: set<string>) returns (ok: bool)
    requires name in links && name !in done && Supported(links[name])
    requires g.Valid() && Built(g.adjacency, links, done, "", 0)
    modifies g
    ensures g.Valid()
    ensures ok ==> Built(g.adjacency, links, done + {name}, "", 0) && SingleReferences(links, links[name])
    ensures !ok ==> !SingleReferences(links, links[name]) || !Acyclic(DesiredGraph(links))
  {
    var deps := GetDependencies(links[name]);
    forall d, r ensures Handled(links, done, "", 0, d, r) <==> Handled(links, done, name, 0, d, r) {}
    var i := 0;
    while i < |deps|
      invariant 0 <= i <= |deps| <= 2
      invariant g.Valid() && Built(g.adjacency, links, done, name, i)
      invariant i == 2 ==> SingleReferences(links, links[name])
    {
      if deps[i].name in links {
        ghost var before := g.adjacency;
        ok := g.AddEdge(deps[i].name, name, deps[i]);
        AddDependency(before, g.adjacency, links, done, name, i, ok);
        if !ok { return false; }
      } else {
        forall d, r ensures Handled(links, done, name, i, d, r) <==> Handled(links, done, name, i + 1, d, r) {}
      }
      i := i + 1;
    }
    forall d, r ensures Handled(links, done, name, |deps|, d, r) <==> Handled(links, done + {name}, "", 0, d, r) {
      assert DependsOn(links[name], d) <==> NamedBefore(deps, |deps|, d);
    }
    ok := true;
  }

  /** One AddEdge either extends the built part by the edge, or shows why no graph can be built. */
  lemma AddDependency(g: Dependents, h: Dependents, links: Links, done: set<string>, name: string, i: nat, ok: bool)
    requires name in links && name !in done && i < |GetDependencies(links[name])|
    requires Built(g, links, done, name, i)
    requires GetDependencies(links[name])[i].name in links
    requires var ref := GetDependencies(links[name])[i]; var d := ref.name;
      && (ok <==> !Edge(g, d, name) && !Reaches(g, name, d))
      && (ok ==> h == g[d := g[d][name := ref]])
    ensures ok ==> Built(h, links, done, name, i + 1)
    ensures ok && i == 1 ==> SingleReferences(links, links[name])
    ensures !ok ==> !SingleReferences(links, links[name]) || !Acyclic(DesiredGraph(links))
  {
    var deps := GetDependencies(links[name]);
    var ref := deps[i];
    assert DependsOn(links[name], ref.name);
    assert Edge(g, ref.name, name) <==> NamedBefore(deps, i, ref.name);
    if ok {
      forall d, r ensures Edge(h, d, r) <==> Handled(links, done, name, i + 1, d, r) {
        assert Edge(h, d, r) <==> Edge(g, d, r) || (d == ref.name && r == name);
        assert NamedBefore(deps, i + 1, d) <==> NamedBefore(deps, i, d) || d == ref.name;
      }
    } else if !Edge(g, ref.name, name) {
      BuiltIsSubgraph(g, links, done, name, i);
      ReachesMonotone(g, DesiredGraph(links), name, ref.name);
      assert Edge(DesiredGraph(links), ref.name, name);
    }
  }
}
