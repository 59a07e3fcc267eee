/** Directed graphs as adjacency maps with data on the edges. */
module Graphs {

  type Adjacency<K, D> = map<K, map<K, D>>

  predicate Edge<K(==), D>(g: Adjacency<K, D>, u: K, v: K) {
    u in g && v in g[u]
  }

  /** Edges join vertices of the graph. */
  ghost predicate IsGraph<K(!new), D>(g: Adjacency<K, D>) {
    forall u, v :: Edge(g, u, v) ==> v in g
  }

  ghost predicate Path<K, D>(g: Adjacency<K, D>, a: K, b: K, p: seq<K>) {
    && |p| > 0 && p[0] == a && p[|p| - 1] == b
    && forall i :: 0 < i < |p| ==> Edge(g, p[i - 1], p[i])
  }

  ghost predicate Reaches<K(!new), D>(g: Adjacency<K, D>, a: K, b: K) {
    exists p: seq<K> :: Path(g, a, b, p)
  }

  /** No edge lies on a cycle. */
  ghost predicate Acyclic<K(!new), D>(g: Adjacency<K, D>) {
    forall u, v :: Edge(g, u, v) ==> !Reaches(g, v, u)
  }

  /** Every edge of `g` is one of `h`. */
  ghost predicate Subgraph<K(!new), D>(g: Adjacency<K, D>, h: Adjacency<K, D>) {
    forall u, v :: Edge(g, u, v) ==> Edge(h, u, v)
  }

  lemma ReachesItself<K(!new), D>(g: Adjacency<K, D>, a: K)
    ensures Reaches(g, a, a)
  {
    assert Path(g, a, a, [a]);
  }

  lemma ReachesStep<K(!new), D>(g: Adjacency<K, D>, a: K, b: K, c: K)
    requires Reaches(g, a, b) && Edge(g, b, c)
    ensures Reaches(g, a, c)
  {
    var p :| Path(g, a, b, p);
    assert Path(g, a, c, p + [c]);
  }

  lemma ReachesTransitive<K(!new), D>(g: Adjacency<K, D>, a: K, b: K, c: K)
    requires Reaches(g, a, b) && Reaches(g, b, c)
    ensures Reaches(g, a, c)
  {
    var p :| Path(g, a, b, p);
    var q :| Path(g, b, c, q);
    assert Path(g, a, c, p + q[1..]);
  }

  lemma ReachesMonotone<K(!new), D>(g: Adjacency<K, D>, h: Adjacency<K, D>, a: K, b: K)
    requires Subgraph(g, h) && Reaches(g, a, b)
    ensures Reaches(h, a, b)
  {
    var p :| Path(g, a, b, p);
    assert Path(h, a, b, p);
  }

  /** A set that holds `a` and is closed under edges holds everything reachable from `a`. */
  lemma ReachedWithin<K(!new), D>(g: Adjacency<K, D>, a: K, b: K, s: set<K>)
    requires a in s && forall u, v :: u in s && Edge(g, u, v) ==> v in s
    requires Reaches(g, a, b)
    ensures b in s
  {
    var p :| Path(g, a, b, p);
    var i := 0;
    while i < |p| - 1
      invariant 0 <= i < |p| && p[i] in s
    {
      assert Edge(g, p[i], p[i + 1]);
      i := i + 1;
    }
  }

  /** Dropping one edge (u, v): a path either survives, or passes u before its end. */
  lemma ReachesWithoutEdge<K(!new), D>(g: Adjacency<K, D>, h: Adjacency<K, D>, u: K, v: K, a: K, b: K)
    requires forall x, y :: Edge(h, x, y) ==> Edge(g, x, y) || (x == u && y == v)
    requires Reaches(h, a, b)
    ensures Reaches(g, a, b) || (Reaches(g, a, u) && Reaches(g, v, b))
  {
    var p :| Path(h, a, b, p);
    var i := 0;
    ReachesItself(g, a);
    ReachesItself(g, v);
    while i < |p| - 1
      invariant 0 <= i < |p|
      invariant Reaches(g, a, p[i]) || (Reaches(g, a, u) && Reaches(g, v, p[i]))
    {
      var x, y := p[i], p[i + 1];
      assert Edge(h, x, y);
      if Edge(g, x, y) {
        if Reaches(g, a, x) { ReachesStep(g, a, x, y); } else { ReachesStep(g, v, x, y); }
      }
      i := i + 1;
    }
  }

  /** An edge that closes no path keeps the graph acyclic. */
  lemma AcyclicWithEdge<K(!new), D>(g: Adjacency<K, D>, h: Adjacency<K, D>, u: K, v: K)
    requires Acyclic(g) && !Reaches(g, v, u)
    requires forall x, y :: Edge(h, x, y) ==> Edge(g, x, y) || (x == u && y == v)
    ensures Acyclic(h)
  {
    forall x, y | Edge(h, x, y) ensures !Reaches(h, y, x) {
      if Reaches(h, y, x) {
        ReachesWithoutEdge(g, h, u, v, y, x);
        if Edge(g, x, y) {
          assert !Reaches(g, y, x);
          ReachesItself(g, x);
          ReachesStep(g, x, x, y);
          ReachesTransitive(g, v, x, y);
          ReachesTransitive(g, v, y, u);
        }
        assert false;
      }
    }
  }

  /** In a nonempty part of an acyclic graph some vertex has no predecessor in that part. */
  lemma {:induction false} SomeVertexIsFirst<K(!new), D>(g: Adjacency<K, D>, part: set<K>, x: K) returns (first: K)
    requires Acyclic(g) && x in part
    ensures first in part && forall u :: u in part ==> !Edge(g, u, first)
    decreases Ancestors(g, part, x)
  {
    var above := Ancestors(g, part, x);
    if above == {} {
      forall u | u in part ensures !Edge(g, u, x) {
        ReachesItself(g, u);
        assert u !in above;
      }
      first := x;
    } else {
      var y :| y in above;
      assert Ancestors(g, part, y) < above by {
        forall z | z in Ancestors(g, part, y) ensures z in above {
          NontrivialTransitive(g, z, y, x);
        }
        if y in Ancestors(g, part, y) { NontrivialCycle(g, y); }
      }
      first := SomeVertexIsFirst(g, part, y);
    }
  }

  /** Reaches over at least one edge. */
  ghost predicate ReachesNontrivially<K(!new), D>(g: Adjacency<K, D>, a: K, b: K) {
    exists c :: Reaches(g, a, c) && Edge(g, c, b)
  }

  ghost function Ancestors<K(!new), D>(g: Adjacency<K, D>, part: set<K>, x: K): set<K> {
    set u | u in part && ReachesNontrivially(g, u, x)
  }

  lemma NontrivialTransitive<K(!new), D>(g: Adjacency<K, D>, a: K, b: K, c: K)
    requires ReachesNontrivially(g, a, b) && ReachesNontrivially(g, b, c)
    ensures ReachesNontrivially(g, a, c)
  {
    var x :| Reaches(g, a, x) && Edge(g, x, b);
    var y :| Reaches(g, b, y) && Edge(g, y, c);
    ReachesStep(g, a, x, b);
    ReachesTransitive(g, a, b, y);
  }

  lemma NontrivialCycle<K(!new), D>(g: Adjacency<K, D>, a: K)
    requires ReachesNontrivially(g, a, a)
    ensures !Acyclic(g)
  {
    var x :| Reaches(g, a, x) && Edge(g, x, a);
  }
}
