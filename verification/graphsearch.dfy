/** Breadth-first search that also reports the edge by which each vertex was found. */
module GraphSearch {
  import opened Wrappers
  import opened Graphs

  datatype GraphEdge<K, D> = GraphEdge(source: K, target: K, data: D)

  datatype Visit<K, D> = Visit(vertex: K, edge: Option<GraphEdge<K, D>>)

  /** Where a vertex is found: over an edge from the `from`-th vertex found, as its `rank`-th successor. */
  datatype Place = Place(from: nat, rank: nat)

  predicate Earlier(p: Place, q: Place) {
    p.from < q.from || (p.from == q.from && p.rank < q.rank)
  }

  /** For every vertex, the order in which a loop goes over the map of its successors. */
  type Orders<K> = map<K, seq<K>>

  ghost predicate Listing<K(!new)>(order: seq<K>, s: set<K>) {
    && (forall i, j :: 0 <= i < j < |order| ==> order[i] != order[j])
    && (forall x :: x in order <==> x in s)
  }

  ghost predicate Ranges<K(!new), D>(orders: Orders<K>, g: Adjacency<K, D>) {
    orders.Keys == g.Keys && forall v :: v in g ==> Listing(orders[v], g[v].Keys)
  }

  ghost function Vertices<K, D>(visits: seq<Visit<K, D>>): set<K> {
    set i | 0 <= i < |visits| :: visits[i].vertex
  }

  // ---------- What a search finds, given the orders ----------

  ghost predicate InGraph<K, D>(g: Adjacency<K, D>, found: seq<Visit<K, D>>) {
    forall i :: 0 <= i < |found| ==> found[i].vertex in g
  }

  /** What is found once the successor `w` of `u` has been looked at. */
  ghost function WithSuccessor<K, D>(g: Adjacency<K, D>, found: seq<Visit<K, D>>, u: K, w: K): seq<Visit<K, D>>
    requires Edge(g, u, w)
  {
    if w in Vertices(found) then found else found + [Visit(w, Some(GraphEdge(u, w, g[u][w])))]
  }

  /** ... and those from the r-th on in `order`. */
  ghost function Enqueued<K(!new), D>(g: Adjacency<K, D>, found: seq<Visit<K, D>>, u: K, order: seq<K>, r: nat)
    : (found': seq<Visit<K, D>>)
    requires IsGraph(g) && InGraph(g, found) && u in g && Listing(order, g[u].Keys) && r <= |order|
    ensures found <= found' && InGraph(g, found')
    decreases |order| - r
  {
    if r == |order| then found else
      assert order[r] in order && Edge(g, u, order[r]);
      Enqueued(g, WithSuccessor(g, found, u, order[r]), u, order, r + 1)
  }

  /** What is found once the first `n` vertices found, or all if there are fewer, have been visited. */
  ghost function FoundAfter<K(!new), D>(g: Adjacency<K, D>, orders: Orders<K>, start: K, n: nat)
    : (found: seq<Visit<K, D>>)
    requires IsGraph(g) && Ranges(orders, g) && start in g
    ensures |found| > 0 && InGraph(g, found)
  {
    if n == 0 then [Visit(start, None)] else
      var found := FoundAfter(g, orders, start, n - 1);
      if n - 1 < |found| then Enqueued(g, found, found[n - 1].vertex, orders[found[n - 1].vertex], 0) else found
  }

  /** All visits of a search that goes over successors in these orders. */
  ghost function SearchWith<K(!new), D>(g: Adjacency<K, D>, orders: Orders<K>, start: K): seq<Visit<K, D>>
    requires IsGraph(g) && Ranges(orders, g) && start in g
  {
    FoundAfter(g, orders, start, |g.Keys|)
  }

  // ---------- The order of the visits ----------

  /** The i-th vertex was found at its place; no vertex before the one that found it has an edge to it. */
  ghost predicate FoundAt<K, D>(g: Adjacency<K, D>, orders: Orders<K>, visits: seq<Visit<K, D>>, places: seq<Place>,
                                i: nat)
    requires i < |visits| == |places|
  {
    var p, v := places[i], visits[i].vertex;
    && p.from < i
    && var u := visits[p.from].vertex;
    && v in g && Edge(g, u, v) && visits[i].edge == Some(GraphEdge(u, v, g[u][v]))
    && u in orders && p.rank < |orders[u]| && orders[u][p.rank] == v
    && forall k :: 0 <= k < p.from ==> !Edge(g, visits[k].vertex, v)
  }

  /**
   * The vertices are distinct and begin with `start`. They come in the order of the vertices that found them; those
   * found by the same one come in its order.
   */
  ghost predicate InTurn<K, D>(g: Adjacency<K, D>, orders: Orders<K>, start: K, visits: seq<Visit<K, D>>,
                               places: seq<Place>)
  {
    && |places| == |visits| > 0
    && start in g && visits[0] == Visit(start, None)
    && (forall i, j :: 0 <= i < j < |visits| ==> visits[i].vertex != visits[j].vertex)
    && (forall i :: 0 < i < |visits| ==> FoundAt(g, orders, visits, places, i))
    && (forall i, j :: 0 < i < j < |visits| ==> Earlier(places[i], places[j]))
  }

  /** The successors of the first `n` vertices have been found. */
  ghost predicate Expanded<K(!new), D>(g: Adjacency<K, D>, visits: seq<Visit<K, D>>, n: nat)
    requires n <= |visits|
  {
    forall i, v :: 0 <= i < n && Edge(g, visits[i].vertex, v) ==> v in Vertices(visits)
  }

  /** Everything reachable is visited, in turn. */
  ghost predicate IsSearch<K(!new), D>(g: Adjacency<K, D>, orders: Orders<K>, start: K, visits: seq<Visit<K, D>>,
                                       places: seq<Place>)
  {
    InTurn(g, orders, start, visits, places) && Expanded(g, visits, |visits|)
  }

  ghost predicate AllEarlier(places: seq<Place>, p: Place) {
    forall i :: 0 < i < |places| ==> Earlier(places[i], p)
  }

  /** One more successor of the n-th vertex, found over its r-th edge. */
  lemma FoundOneMore<K(!new), D>(g: Adjacency<K, D>, orders: Orders<K>, start: K, found: seq<Visit<K, D>>,
                                 places: seq<Place>, n: nat, r: nat)
    requires IsGraph(g) && Ranges(orders, g)
    requires InTurn(g, orders, start, found, places) && n < |found| && Expanded(g, found, n)
    requires AllEarlier(places, Place(n, r))
    requires var u := found[n].vertex; u in g && r < |orders[u]| && orders[u][r] !in Vertices(found)
    ensures var u, w := found[n].vertex, orders[found[n].vertex][r];
      w in g[u] && InTurn(g, orders, start, found + [Visit(w, Some(GraphEdge(u, w, g[u][w])))], places + [Place(n, r)])
    ensures AllEarlier(places + [Place(n, r)], Place(n, r + 1))
  {
    var u, w := found[n].vertex, orders[found[n].vertex][r];
    assert w in orders[u] && Edge(g, u, w);
    var found', places' := found + [Visit(w, Some(GraphEdge(u, w, g[u][w])))], places + [Place(n, r)];
    forall i | 0 < i < |found'| ensures FoundAt(g, orders, found', places', i) {
      if i < |found| {
        assert FoundAt(g, orders, found, places, i);
        assert forall k :: 0 <= k < |found| ==> found'[k] == found[k];
      }
    }
  }

  /** Looking at the successors of the n-th vertex from the r-th on. */
  lemma {:induction false} EnqueuedInTurn<K(!new), D>(g: Adjacency<K, D>, orders: Orders<K>, start: K,
                                                      found: seq<Visit<K, D>>, places: seq<Place>, n: nat, r: nat)
    returns (places': seq<Place>)
    requires IsGraph(g) && Ranges(orders, g) && InGraph(g, found)
    requires InTurn(g, orders, start, found, places) && n < |found| && Expanded(g, found, n)
    requires AllEarlier(places, Place(n, r))
    requires r <= |orders[found[n].vertex]| && forall k :: 0 <= k < r ==> orders[found[n].vertex][k] in Vertices(found)
    ensures var found' := Enqueued(g, found, found[n].vertex, orders[found[n].vertex], r);
      InTurn(g, orders, start, found', places') && Expanded(g, found', n + 1) && AllEarlier(places', Place(n + 1, 0))
    decreases |orders[found[n].vertex]| - r
  {
    var u, order := found[n].vertex, orders[found[n].vertex];
    if r == |order| {
      places' := places;
      forall v | Edge(g, u, v) ensures v in Vertices(found) {
        assert v in order;
      }
    } else if order[r] in Vertices(found) {
      places' := EnqueuedInTurn(g, orders, start, found, places, n, r + 1);
    } else {
      assert order[r] in order && Edge(g, u, order[r]);
      FoundOneMore(g, orders, start, found, places, n, r);
      var found' := found + [Visit(order[r], Some(GraphEdge(u, order[r], g[u][order[r]])))];
      VerticesWithMore(found, found');
      assert found'[|found|].vertex == order[r];
      places' := EnqueuedInTurn(g, orders, start, found', places + [Place(n, r)], n, r + 1);
    }
  }

  lemma VerticesWithMore<K, D>(found: seq<Visit<K, D>>, found': seq<Visit<K, D>>)
    requires found <= found'
    ensures Vertices(found) <= Vertices(found')
  {
    forall v | v in Vertices(found) ensures v in Vertices(found') {
      var i :| 0 <= i < |found| && found[i].vertex == v;
      assert found'[i].vertex == v;
    }
  }

  /** The state of the search after visits of the first `n` vertices. */
  lemma {:induction false} FoundInTurn<K(!new), D>(g: Adjacency<K, D>, orders: Orders<K>, start: K, n: nat)
    returns (places: seq<Place>)
    requires IsGraph(g) && Ranges(orders, g) && start in g
    ensures var found := FoundAfter(g, orders, start, n);
      && InTurn(g, orders, start, found, places)
      && if n <= |found| then Expanded(g, found, n) && AllEarlier(places, Place(n, 0)) else Expanded(g, found, |found|)
  {
    if n == 0 {
      places := [Place(0, 0)];
    } else {
      var found := FoundAfter(g, orders, start, n - 1);
      places := FoundInTurn(g, orders, start, n - 1);
      if n - 1 < |found| {
        places := EnqueuedInTurn(g, orders, start, found, places, n - 1, 0);
      }
    }
  }

  /** Visits more than there are vertices find no more. */
  lemma {:induction false} FoundAfterMore<K(!new), D>(g: Adjacency<K, D>, orders: Orders<K>, start: K, n: nat, m: nat)
    requires IsGraph(g) && Ranges(orders, g) && start in g && n <= m
    ensures FoundAfter(g, orders, start, n) <= FoundAfter(g, orders, start, m)
    ensures |FoundAfter(g, orders, start, n)| <= n ==>
      FoundAfter(g, orders, start, m) == FoundAfter(g, orders, start, n)
  {
    if n < m {
      FoundAfterMore(g, orders, start, n, m - 1);
    }
  }

  lemma {:induction false} NoMoreThanVertices<K, D>(visits: seq<Visit<K, D>>, vertices: set<K>)
    requires forall i, j :: 0 <= i < j < |visits| ==> visits[i].vertex != visits[j].vertex
    requires forall i :: 0 <= i < |visits| ==> visits[i].vertex in vertices
    ensures |visits| <= |vertices|
  {
    if visits != [] {
      var last := |visits| - 1;
      NoMoreThanVertices(visits[..last], vertices - {visits[last].vertex});
    }
  }

  /** The search with given orders ends, with everything reachable visited in turn. */
  lemma SearchInTurn<K(!new), D>(g: Adjacency<K, D>, orders: Orders<K>, start: K) returns (places: seq<Place>)
    requires IsGraph(g) && Ranges(orders, g) && start in g
    ensures IsSearch(g, orders, start, SearchWith(g, orders, start), places)
  {
    var visits := SearchWith(g, orders, start);
    places := FoundInTurn(g, orders, start, |g.Keys|);
    NoMoreThanVertices(visits, g.Keys);
  }

  /** Nothing else is: what is visited in turn, and leaves nothing out, is the search. */
  lemma SearchIsTheOnly<K(!new), D>(g: Adjacency<K, D>, orders: Orders<K>, start: K, visits: seq<Visit<K, D>>,
                                    places: seq<Place>)
    requires IsGraph(g) && Ranges(orders, g) && IsSearch(g, orders, start, visits, places)
    ensures visits == SearchWith(g, orders, start)
  {
    var places' := SearchInTurn(g, orders, start);
    SameSearch(g, orders, start, visits, places, SearchWith(g, orders, start), places', |visits|);
    SameSearch(g, orders, start, SearchWith(g, orders, start), places', visits, places, |SearchWith(g, orders, start)|);
  }

  /** Two searches agree on their first `n` visits. */
  lemma {:induction false} SameSearch<K(!new), D>(g: Adjacency<K, D>, orders: Orders<K>, start: K, a: seq<Visit<K, D>>,
                                                  p: seq<Place>, b: seq<Visit<K, D>>, q: seq<Place>, n: nat)
    requires IsGraph(g) && Ranges(orders, g)
    requires IsSearch(g, orders, start, a, p) && IsSearch(g, orders, start, b, q) && n <= |a|
    ensures n <= |b| && a[..n] == b[..n]
  {
    if n > 1 {
      var i := n - 1;
      SameSearch(g, orders, start, a, p, b, q, i);
      assert forall k :: 0 <= k < i ==> a[..i][k] == b[..i][k];
      FoundNoLater(g, orders, start, a, p, b, q, i);
      FoundNoLater(g, orders, start, b, q, a, p, i);
      assert FoundAt(g, orders, a, p, i) && FoundAt(g, orders, b, q, i);
    }
  }

  /** The i-th vertex of one search is found by the other, at the same place, or a later vertex at an earlier one. */
  lemma FoundNoLater<K(!new), D>(g: Adjacency<K, D>, orders: Orders<K>, start: K, a: seq<Visit<K, D>>, p: seq<Place>,
                                 b: seq<Visit<K, D>>, q: seq<Place>, i: nat)
    requires IsGraph(g) && Ranges(orders, g)
    requires IsSearch(g, orders, start, a, p) && IsSearch(g, orders, start, b, q)
    requires 0 < i < |a| && i <= |b| && forall k :: 0 <= k < i ==> a[k] == b[k]
    ensures i < |b| && (q[i] == p[i] || Earlier(q[i], p[i]))
  {
    var f, v := p[i].from, a[i].vertex;
    assert FoundAt(g, orders, a, p, i);
    assert Edge(g, b[f].vertex, v);
    assert v in Vertices(b);
    var x :| 0 <= x < |b| && b[x].vertex == v;
    assert x >= i;
    assert FoundAt(g, orders, b, q, x);
    assert q[x].from <= f;
  }

  // ---------- Distances ----------

  /** How many edges away from the first vertex the i-th was found. */
  ghost function Depth(places: seq<Place>, i: nat): nat
    requires i < |places| && forall k :: 0 < k < |places| ==> places[k].from < k
  {
    if i == 0 then 0 else Depth(places, places[i].from) + 1
  }

  lemma {:induction false} DepthsAscend(places: seq<Place>, i: nat, j: nat)
    requires i <= j < |places|
    requires forall k :: 0 < k < |places| ==> places[k].from < k
    requires forall k, m :: 0 < k < m < |places| ==> Earlier(places[k], places[m])
    ensures Depth(places, i) <= Depth(places, j)
    decreases j
  {
    if 0 < i < j {
      assert Earlier(places[i], places[j]);
      DepthsAscend(places, places[i].from, places[j].from);
    }
  }

  ghost predicate Rooted<K, D>(g: Adjacency<K, D>, orders: Orders<K>, start: K, visits: seq<Visit<K, D>>,
                               places: seq<Place>)
  {
    InTurn(g, orders, start, visits, places) && forall k :: 0 < k < |places| ==> places[k].from < k
  }

  lemma {:induction false} PathOfDepth<K(!new), D>(g: Adjacency<K, D>, orders: Orders<K>, start: K,
                                                   visits: seq<Visit<K, D>>, places: seq<Place>, i: nat)
    returns (p: seq<K>)
    requires Rooted(g, orders, start, visits, places) && i < |visits|
    ensures Path(g, start, visits[i].vertex, p) && |p| == Depth(places, i) + 1
  {
    if i == 0 {
      p := [start];
    } else {
      assert FoundAt(g, orders, visits, places, i);
      p := PathOfDepth(g, orders, start, visits, places, places[i].from);
      p := p + [visits[i].vertex];
    }
  }

  /** No path to a visited vertex is shorter than its depth says. */
  lemma NoShorterPath<K(!new), D>(g: Adjacency<K, D>, orders: Orders<K>, start: K, visits: seq<Visit<K, D>>,
                                  places: seq<Place>, i: nat, p: seq<K>)
    requires Rooted(g, orders, start, visits, places) && Expanded(g, visits, |visits|) && i < |visits|
    requires Path(g, start, visits[i].vertex, p)
    ensures |p| > Depth(places, i)
  {
    var k, x := 0, 0;
    while k < |p| - 1
      invariant 0 <= k < |p| && 0 <= x < |visits|
      invariant visits[x].vertex == p[k] && Depth(places, x) <= k
    {
      assert Edge(g, p[k], p[k + 1]);
      assert p[k + 1] in Vertices(visits);
      var y :| 0 <= y < |visits| && visits[y].vertex == p[k + 1];
      if y > 0 {
        assert FoundAt(g, orders, visits, places, y);
        DepthsAscend(places, places[y].from, x);
      }
      k, x := k + 1, y;
    }
  }

  /** Vertices visited first are no farther from `start`; each was found from one that is one step closer. */
  ghost predicate NearestFirst<K(!new), D>(g: Adjacency<K, D>, start: K, visits: seq<Visit<K, D>>, depth: seq<nat>) {
    && |depth| == |visits|
    && (forall i :: 0 <= i < |visits| ==> Distance(g, start, visits[i].vertex, depth[i]))
    && (forall i :: 0 < i < |visits| ==> visits[i].edge.Some? && FoundOverNearest(g, start, visits[i]))
    && (forall i, j :: 0 <= i < j < |visits| ==> depth[i] <= depth[j])
  }

  /** No path from `a` to `b` has fewer than `d` edges, and one has `d`. */
  ghost predicate Distance<K(!new), D>(g: Adjacency<K, D>, a: K, b: K, d: nat) {
    && (exists p: seq<K> :: Path(g, a, b, p) && |p| == d + 1)
    && (forall p: seq<K> :: Path(g, a, b, p) ==> |p| > d)
  }

  /** `v` may be found from `u`, which is one step closer to `start`. */
  ghost predicate NearestEdge<K(!new), D>(g: Adjacency<K, D>, start: K, u: K, v: K) {
    Edge(g, u, v) && exists d: nat :: Distance(g, start, u, d) && Distance(g, start, v, d + 1)
  }

  ghost predicate FoundOverNearest<K(!new), D>(g: Adjacency<K, D>, start: K, visit: Visit<K, D>)
    requires visit.edge.Some?
  {
    var e := visit.edge.value;
    NearestEdge(g, start, e.source, visit.vertex) && e.target == visit.vertex && e.data == g[e.source][e.target]
  }

  lemma DistanceIsUnique<K(!new), D>(g: Adjacency<K, D>, a: K, b: K, d: nat, e: nat)
    requires Distance(g, a, b, d) && Distance(g, a, b, e)
    ensures d == e
  {
    var p :| Path(g, a, b, p) && |p| == d + 1;
    var q :| Path(g, a, b, q) && |q| == e + 1;
  }

  /** Depths are distances. */
  lemma SearchIsNearestFirst<K(!new), D>(g: Adjacency<K, D>, orders: Orders<K>, start: K, visits: seq<Visit<K, D>>,
                                         places: seq<Place>)
    returns (depth: seq<nat>)
    requires IsSearch(g, orders, start, visits, places)
    ensures NearestFirst(g, start, visits, depth)
    ensures forall i :: 0 < i < |visits| ==> places[i].from < i && depth[i] == depth[places[i].from] + 1
  {
    assert Rooted(g, orders, start, visits, places) by {
      forall k | 0 < k < |visits| ensures places[k].from < k {
        assert FoundAt(g, orders, visits, places, k);
      }
    }
    depth := seq(|visits|, i requires 0 <= i < |visits| => Depth(places, i));
    forall i | 0 <= i < |visits| ensures Distance(g, start, visits[i].vertex, depth[i]) {
      var p := PathOfDepth(g, orders, start, visits, places, i);
      forall q: seq<K> | Path(g, start, visits[i].vertex, q) ensures |q| > depth[i] {
        NoShorterPath(g, orders, start, visits, places, i, q);
      }
    }
    forall i, j | 0 <= i < j < |visits| ensures depth[i] <= depth[j] {
      DepthsAscend(places, i, j);
    }
    forall i | 0 < i < |visits| ensures visits[i].edge.Some? && FoundOverNearest(g, start, visits[i]) {
      assert FoundAt(g, orders, visits, places, i);
      assert Distance(g, start, visits[places[i].from].vertex, depth[places[i].from]);
    }
  }

  /** The vertices visited are exactly the reachable ones. */
  lemma AllFound<K(!new), D>(g: Adjacency<K, D>, orders: Orders<K>, start: K, visits: seq<Visit<K, D>>,
                             places: seq<Place>, v: K)
    requires IsSearch(g, orders, start, visits, places)
    ensures v in Vertices(visits) <==> Reaches(g, start, v)
  {
    if v in Vertices(visits) {
      var i :| 0 <= i < |visits| && visits[i].vertex == v;
      var depth := SearchIsNearestFirst(g, orders, start, visits, places);
      assert Distance(g, start, v, depth[i]);
    }
    if Reaches(g, start, v) {
      assert visits[0].vertex == start;
      forall x, y | x in Vertices(visits) && Edge(g, x, y) ensures y in Vertices(visits) {
        var i :| 0 <= i < |visits| && visits[i].vertex == x;
      }
      ReachedWithin(g, start, v, Vertices(visits));
    }
  }

  // ---------- Any nearest edge may be the one ----------

  /** The orders look first at the successor that follows in the path `q`. */
  ghost predicate Follow<K, D>(orders: Orders<K>, g: Adjacency<K, D>, q: seq<K>) {
    forall i :: 0 <= i < |q| - 1 && q[i] in orders ==> |orders[q[i]]| > 0 && orders[q[i]][0] == q[i + 1]
  }

  /** Every vertex of the path is as far from its start as it is in the path. */
  ghost predicate Straight<K(!new), D>(g: Adjacency<K, D>, q: seq<K>) {
    && |q| > 0 && Path(g, q[0], q[|q| - 1], q)
    && forall i :: 0 <= i < |q| ==> Distance(g, q[0], q[i], i)
  }

  lemma StraightPath<K(!new), D>(g: Adjacency<K, D>, start: K, v: K, d: nat) returns (q: seq<K>)
    requires Distance(g, start, v, d)
    ensures Straight(g, q) && |q| == d + 1 && q[0] == start && q[d] == v
  {
    q :| Path(g, start, v, q) && |q| == d + 1;
    forall i | 0 <= i < |q| ensures Distance(g, start, q[i], i) {
      assert Path(g, start, q[i], q[..i + 1]);
      forall p: seq<K> | Path(g, start, q[i], p) ensures |p| > i {
        assert Path(g, start, v, p + q[i + 1..]);
      }
    }
  }

  lemma {:induction false} SomeListing<K(!new)>(s: set<K>) returns (order: seq<K>)
    ensures Listing(order, s)
  {
    if s == {} {
      order := [];
    } else {
      var x :| x in s;
      order := SomeListing(s - {x});
      order := [x] + order;
    }
  }

  lemma ListingFrom<K(!new)>(s: set<K>, x: K) returns (order: seq<K>)
    requires x in s
    ensures Listing(order, s) && order[0] == x
  {
    order := SomeListing(s - {x});
    order := [x] + order;
  }

  /** Orders for the vertices of `part`. */
  lemma {:induction false} OrdersThatFollow<K(!new), D>(g: Adjacency<K, D>, q: seq<K>, part: set<K>)
    returns (orders: Orders<K>)
    requires Straight(g, q) && part <= g.Keys
    ensures orders.Keys == part && (forall v :: v in part ==> Listing(orders[v], g[v].Keys)) && Follow(orders, g, q)
    decreases part
  {
    if part == {} {
      orders := map[];
    } else {
      var v :| v in part;
      orders := OrdersThatFollow(g, q, part - {v});
      var order;
      if i :| 0 <= i < |q| - 1 && q[i] == v {
        assert Edge(g, q[i], q[i + 1]);
        order := ListingFrom(g[v].Keys, q[i + 1]);
        forall j | 0 <= j < |q| - 1 && q[j] == v ensures j == i {
          DistanceIsUnique(g, q[0], v, i, j);
        }
      } else {
        order := SomeListing(g[v].Keys);
      }
      orders := orders[v := order];
    }
  }

  /** If the orders follow a straight path, its vertices are the first of their layers, each found over the last. */
  lemma {:induction false} FirstOfLayer<K(!new), D>(g: Adjacency<K, D>, orders: Orders<K>, visits: seq<Visit<K, D>>,
                                                    places: seq<Place>, depth: seq<nat>, q: seq<K>, k: nat)
    returns (i: nat)
    requires IsGraph(g) && Ranges(orders, g) && Straight(g, q) && Follow(orders, g, q) && k < |q|
    requires IsSearch(g, orders, q[0], visits, places) && NearestFirst(g, q[0], visits, depth)
    requires forall j :: 0 < j < |visits| ==> places[j].from < j && depth[j] == depth[places[j].from] + 1
    ensures i < |visits| && visits[i].vertex == q[k] && depth[i] == k
    ensures forall j :: 0 <= j < i ==> depth[j] < k
    ensures k > 0 ==> visits[i].edge == Some(GraphEdge(q[k - 1], q[k], g[q[k - 1]][q[k]]))
  {
    if k == 0 {
      i := 0;
      DistanceIsUnique(g, q[0], q[0], 0, depth[0]);
    } else {
      var f := FirstOfLayer(g, orders, visits, places, depth, q, k - 1);
      assert Edge(g, q[k - 1], q[k]);
      assert q[k] in Vertices(visits);
      i :| 0 <= i < |visits| && visits[i].vertex == q[k];
      DistanceIsUnique(g, q[0], q[k], k, depth[i]);
      DistanceIsUnique(g, q[0], q[0], 0, depth[0]);
      assert FoundAt(g, orders, visits, places, i);
      assert places[i].from == f;
      assert places[i].rank == 0 by {
        assert orders[q[k - 1]][0] == q[k];
      }
      forall j | 0 <= j < i ensures depth[j] < k {
        if j > 0 {
          assert Earlier(places[j], places[i]);
        }
      }
    }
  }

  /** Every nearest edge is the one over which the search finds its target, with some orders. */
  lemma AnyNearestEdge<K(!new), D>(g: Adjacency<K, D>, start: K, u: K, v: K) returns (orders: Orders<K>, i: nat)
    requires IsGraph(g) && NearestEdge(g, start, u, v)
    ensures start in g && Ranges(orders, g)
    ensures var visits := SearchWith(g, orders, start);
      i < |visits| && visits[i] == Visit(v, Some(GraphEdge(u, v, g[u][v])))
  {
    var d: nat :| Distance(g, start, u, d) && Distance(g, start, v, d + 1);
    var p := StraightPath(g, start, u, d);
    var q := p + [v];
    assert Straight(g, q);
    assert Edge(g, q[0], q[1]);
    orders := OrdersThatFollow(g, q, g.Keys);
    var visits := SearchWith(g, orders, start);
    var places := SearchInTurn(g, orders, start);
    var depth := SearchIsNearestFirst(g, orders, start, visits, places);
    i := FirstOfLayer(g, orders, visits, places, depth, q, d + 1);
  }

  // ---------- The search ----------

  /** What is known of the visits made when the search stops, perhaps early. */
  lemma VisitedSoFar<K(!new), D>(g: Adjacency<K, D>, orders: Orders<K>, start: K, visits: seq<Visit<K, D>>)
    returns (places: seq<Place>, depth: seq<nat>)
    requires IsGraph(g) && Ranges(orders, g) && start in g
    requires 0 < |visits| && visits <= SearchWith(g, orders, start)
    ensures InTurn(g, orders, start, visits, places) && NearestFirst(g, start, visits, depth)
  {
    var all := SearchWith(g, orders, start);
    places := SearchInTurn(g, orders, start);
    depth := SearchIsNearestFirst(g, orders, start, all, places);
    forall i | 0 < i < |visits| ensures FoundAt(g, orders, visits, places[..|visits|], i) {
      assert FoundAt(g, orders, all, places, i);
    }
    forall i | 0 < i < |visits| ensures visits[i].edge.Some? && FoundOverNearest(g, start, visits[i]) {
      assert visits[i] == all[i];
    }
    places, depth := places[..|visits|], depth[..|visits|];
  }

  /** A visit of the head of the queue, in the state that `n` visits left. */
  lemma VisitHead<K(!new), D>(g: Adjacency<K, D>, orders: Orders<K>, start: K, n: nat)
    requires IsGraph(g) && Ranges(orders, g) && start in g && n < |FoundAfter(g, orders, start, n)|
    ensures var found := FoundAfter(g, orders, start, n);
      && found[..n + 1] <= SearchWith(g, orders, start)
      && g.Keys - Vertices(found[..n + 1]) < g.Keys - Vertices(found[..n])
  {
    var found := FoundAfter(g, orders, start, n);
    var places := FoundInTurn(g, orders, start, n);
    NoMoreThanVertices(found, g.Keys);
    FoundAfterMore(g, orders, start, n, |g.Keys|);
    VerticesWithMore(found[..n], found[..n + 1]);
    assert found[..n + 1][n] == found[n];
    assert found[n].vertex in Vertices(found[..n + 1]) && found[n].vertex in g.Keys - Vertices(found[..n]);
  }

  /**
   * Visits the vertices reachable from `start`, each with the edge it was found over, until a visit fails. The orders
   * of iteration over maps, which the language leaves open, are those given. What a visit does cannot change the graph,
   * so `visits` lists the calls in order and `visitFails` says which fail.
   */
  method BFSWithEdge<K(==,!new), D>(g: Adjacency<K, D>, orders: Orders<K>, start: K,
                                    visitFails: (K, Option<GraphEdge<K, D>>) -> bool)
    returns (ok: bool, visits: seq<Visit<K, D>>)
    requires IsGraph(g) && Ranges(orders, g)
    ensures start !in g ==> !ok && visits == []
    ensures start in g ==> 0 < |visits| && visits <= SearchWith(g, orders, start)
    ensures ok ==> start in g && visits == SearchWith(g, orders, start)
    ensures ok ==> forall v :: v in Vertices(visits) <==> Reaches(g, start, v)
    ensures ok ==> forall i :: 0 <= i < |visits| ==> !visitFails(visits[i].vertex, visits[i].edge)
    ensures !ok ==> forall i :: 0 <= i < |visits| ==>
      (visitFails(visits[i].vertex, visits[i].edge) <==> i == |visits| - 1)
  {
    visits := [];
    if start !in g { return false, visits; }
    var queue := [Visit(start, None)];
    var visited := {start};
    assert (visits + queue)[0].vertex == start;
    while |queue| > 0
      invariant visits + queue == FoundAfter(g, orders, start, |visits|)
      invariant visited == Vertices(visits + queue)
      invariant forall i :: 0 <= i < |visits| ==> !visitFails(visits[i].vertex, visits[i].edge)
      decreases g.Keys - Vertices(visits)
    {
      VisitHead(g, orders, start, |visits|);
      ghost var found := visits + queue;
      assert found[..|visits|] == visits && found[..|visits| + 1] == visits + [queue[0]];
      var current := queue[0];
      queue := queue[1..];
      visits := visits + [current];
      assert visits + queue == found;
      if visitFails(current.vertex, current.edge) { return false, visits; }
      queue, visited := Expand(g, orders[current.vertex], visits, queue, visited);
    }
    assert visits + queue == visits;
    SearchEnds(g, orders, start, |visits|);
    ok := true;
  }

  lemma SearchEnds<K(!new), D>(g: Adjacency<K, D>, orders: Orders<K>, start: K, n: nat)
    requires IsGraph(g) && Ranges(orders, g) && start in g && |FoundAfter(g, orders, start, n)| == n
    ensures FoundAfter(g, orders, start, n) == SearchWith(g, orders, start)
    ensures forall v :: v in Vertices(SearchWith(g, orders, start)) <==> Reaches(g, start, v)
  {
    var places := FoundInTurn(g, orders, start, n);
    NoMoreThanVertices(FoundAfter(g, orders, start, n), g.Keys);
    FoundAfterMore(g, orders, start, n, |g.Keys|);
    places := SearchInTurn(g, orders, start);
    forall v ensures v in Vertices(SearchWith(g, orders, start)) <==> Reaches(g, start, v) {
      AllFound(g, orders, start, SearchWith(g, orders, start), places, v);
    }
  }

  /** Queues the successors of the vertex just visited that were not found before. */
  method Expand<K(==,!new), D>(g: Adjacency<K, D>, order: seq<K>, visits: seq<Visit<K, D>>, queue: seq<Visit<K, D>>,
                               visited: set<K>)
    returns (queue': seq<Visit<K, D>>, visited': set<K>)
    requires IsGraph(g) && |visits| > 0 && InGraph(g, visits + queue) && visited == Vertices(visits + queue)
    requires visits[|visits| - 1].vertex in g && Listing(order, g[visits[|visits| - 1].vertex].Keys)
    ensures visits + queue' == Enqueued(g, visits + queue, visits[|visits| - 1].vertex, order, 0)
    ensures visited' == Vertices(visits + queue')
  {
    queue', visited' := queue, visited;
    var current := visits[|visits| - 1].vertex;
    var adjacent := g[current];
    ghost var found, end := visits + queue, Enqueued(g, visits + queue, current, order, 0);
    for r := 0 to |order|
      invariant found == visits + queue' && visited' == Vertices(found) && InGraph(g, found)
      invariant Enqueued(g, found, current, order, r) == end
    {
      var next := order[r];
      assert next in order && Edge(g, current, next);
      ghost var before := found;
      found := WithSuccessor(g, found, current, next);
      if next !in visited' {
        visited' := visited' + {next};
        queue' := queue' + [Visit(next, Some(GraphEdge(current, next, adjacent[next])))];
        VerticesWithOne(before, found, next);
      }
    }
  }

  lemma VerticesWithOne<K, D>(found: seq<Visit<K, D>>, found': seq<Visit<K, D>>, w: K)
    requires found < found' && |found'| == |found| + 1 && found'[|found|].vertex == w
    ensures Vertices(found') == Vertices(found) + {w}
  {
    VerticesWithMore(found, found');
    assert forall i :: 0 <= i < |found| ==> found'[i] == found[i];
  }

  /** Some orders of iteration; nothing is known of which. */
  method AnyOrders<K(==,!new), D>(g: Adjacency<K, D>) returns (orders: Orders<K>)
    ensures Ranges(orders, g)
  {
    orders := map[];
    while orders.Keys != g.Keys
      invariant orders.Keys <= g.Keys && forall v :: v in orders ==> Listing(orders[v], g[v].Keys)
      decreases g.Keys - orders.Keys
    {
      var v :| v in g && v !in orders;
      var order, rest := [], g[v].Keys;
      while rest != {}
        invariant rest <= g[v].Keys && Listing(order, g[v].Keys - rest)
      {
        var w :| w in rest;
        assert w !in order;
        order, rest := order + [w], rest - {w};
      }
      assert g[v].Keys - rest == g[v].Keys;
      ghost var before := orders;
      orders := orders[v := order];
      assert orders.Keys == before.Keys + {v};
    }
  }
}
