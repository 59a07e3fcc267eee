/** One pass over the links of a node in topological order. */
module UpsertPass {
  import opened Wrappers
  import opened Kernel
  import opened Netlink
  import opened Links
  import opened Managers
  import opened Graphs
  import opened GraphSearch
  import opened LinkGraph
  import opened Status
  import opened Deletion
  import opened MissingDependencies
  import opened Soundness

  // ---------- Setting dependents down ----------

  /** `v` depends on `root`, and all its nearest references ask to be set down when `root` changes. */
  ghost predicate SetDownWith(g: Dependents, root: string, v: string) {
    && v != root && Reaches(g, root, v)
    && forall u :: NearestEdge(g, root, u, v) ==> g[u][v].setDown
  }

  /** Some nearest reference asks for it. */
  ghost predicate MayBeSetDownWith(g: Dependents, root: string, v: string) {
    && v != root && Reaches(g, root, v)
    && exists u :: NearestEdge(g, root, u, v) && g[u][v].setDown
  }

  ghost predicate FoundOverSetDown(visits: seq<Visit<string, LinkReference>>, v: string) {
    exists j :: 0 <= j < |visits| && visits[j].vertex == v && visits[j].edge.Some? && visits[j].edge.value.data.setDown
  }

  /**
   * Exactly what the flags achieve: `v` is set down whatever the order of iteration if and only if all its nearest
   * references ask for it, and in some order if and only if one does.
   */
  lemma SetDownExactly(g: Dependents, root: string, v: string)
    requires IsGraph(g) && root in g && v != root && Reaches(g, root, v)
    ensures SetDownWith(g, root, v) <==>
      forall orders :: Ranges(orders, g) ==> FoundOverSetDown(SearchWith(g, orders, root), v)
    ensures MayBeSetDownWith(g, root, v) <==>
      exists orders :: Ranges(orders, g) && FoundOverSetDown(SearchWith(g, orders, root), v)
  {
    forall orders | Ranges(orders, g)
      ensures SetDownWith(g, root, v) ==> FoundOverSetDown(SearchWith(g, orders, root), v)
      ensures FoundOverSetDown(SearchWith(g, orders, root), v) ==> MayBeSetDownWith(g, root, v)
    {
      FoundOverReference(g, orders, root, v);
    }
    if !SetDownWith(g, root, v) {
      var u :| NearestEdge(g, root, u, v) && !g[u][v].setDown;
      var orders := FoundOverAnyReference(g, root, u, v);
    }
    if MayBeSetDownWith(g, root, v) {
      var u :| NearestEdge(g, root, u, v) && g[u][v].setDown;
      var orders := FoundOverAnyReference(g, root, u, v);
    }
  }

  /** Any nearest reference may be the one that decides. */
  lemma FoundOverAnyReference(g: Dependents, root: string, u: string, v: string) returns (orders: Orders<string>)
    requires IsGraph(g) && NearestEdge(g, root, u, v)
    ensures root in g && Ranges(orders, g)
    ensures FoundOverSetDown(SearchWith(g, orders, root), v) <==> g[u][v].setDown
  {
    var i;
    orders, i := AnyNearestEdge(g, root, u, v);
    var places := SearchInTurn(g, orders, root);
    assert forall j :: 0 <= j < |places| && SearchWith(g, orders, root)[j].vertex == v ==> j == i;
  }

  /** A dependent is found over one of its nearest references. */
  lemma FoundOverReference(g: Dependents, orders: Orders<string>, root: string, v: string)
    requires IsGraph(g) && Ranges(orders, g) && root in g && v != root && Reaches(g, root, v)
    ensures SetDownWith(g, root, v) ==> FoundOverSetDown(SearchWith(g, orders, root), v)
    ensures FoundOverSetDown(SearchWith(g, orders, root), v) ==> MayBeSetDownWith(g, root, v)
  {
    var visits := SearchWith(g, orders, root);
    var places := SearchInTurn(g, orders, root);
    AllFound(g, orders, root, visits, places, v);
    var j :| 0 <= j < |visits| && visits[j].vertex == v;
    var depth := SearchIsNearestFirst(g, orders, root, visits, places);
    assert FoundOverNearest(g, root, visits[j]);
  }

  /** A reference to `root` itself decides, whatever others ask for. */
  lemma DirectReferenceDecides(g: Dependents, root: string, v: string)
    requires v != root && Edge(g, root, v)
    ensures SetDownWith(g, root, v) <==> g[root][v].setDown
    ensures MayBeSetDownWith(g, root, v) <==> g[root][v].setDown
  {
    assert Path(g, root, root, [root]) && Path(g, root, v, [root, v]);
    assert Distance(g, root, root, 0) && Distance(g, root, v, 0 + 1);
    forall u | NearestEdge(g, root, u, v) ensures u == root {
      var d: nat :| Distance(g, root, u, d) && Distance(g, root, v, d + 1);
      DistanceIsUnique(g, root, v, d + 1, 0 + 1);
    }
  }

  /**
   * So a reference that asks for it is not enough: here `v` refers to `u`, which depends on `root`, but it also refers
   * to `root` itself without asking.
   */
  lemma SetDownCanBeSkipped(root: string, u: string, v: string, remote: IPv4) returns (links: Links)
    requires root != u && root != v && u != v
    ensures links.Keys == {root, u, v} && Acceptable(links)
    ensures var g := DesiredGraph(links);
      Edge(g, root, u) && Edge(g, u, v) && g[u][v].setDown && !MayBeSetDownWith(g, root, v)
  {
    var first := VxlanSpec(1, remote, 4789, 4789, 4789, Some(LinkReference(root, false, false)), None, None, None);
    var second := VxlanSpec(2, remote, 4789, 4789, 4789, Some(LinkReference(u, false, true)),
                            Some(LinkReference(root, false, false)), None, None);
    links := map[root := Link(root, BridgeSpec(None)), u := Link(u, first), v := Link(v, second)];
    SetDownIsSkipped(links, root, u, v);
  }

  lemma SetDownIsSkipped(links: Links, root: string, u: string, v: string)
    requires root != u && root != v && u != v && links.Keys == {root, u, v}
    requires forall r :: r in links ==> links[r].linkName == r && Supported(links[r])
    requires GetDependencies(links[root]) == []
    requires GetDependencies(links[u]) == [LinkReference(root, false, false)]
    requires GetDependencies(links[v]) == [LinkReference(root, false, false), LinkReference(u, false, true)]
    ensures Acceptable(links)
    ensures var g := DesiredGraph(links);
      Edge(g, root, u) && Edge(g, u, v) && g[u][v].setDown && !MayBeSetDownWith(g, root, v)
  {
    ThreeInOrder(links, root, u, v);
    ReferenceIsEdge(links, u, 0);
    ReferenceIsEdge(links, v, 0);
    ReferenceIsEdge(links, v, 1);
    DirectReferenceDecides(DesiredGraph(links), root, v);
  }

  /** Links whose interfaces have their names, in an order in which each refers to earlier ones only, are accepted. */
  lemma AcceptableInOrder(links: Links, order: seq<string>)
    requires (forall i, j :: 0 <= i < j < |order| ==> order[i] != order[j]) && forall r :: r in links <==> r in order
    requires forall r :: r in links ==> links[r].linkName == r && Supported(links[r])
    requires forall i, ref :: 0 <= i < |order| && ref in GetDependencies(links[order[i]]) ==> ref.name in order[..i]
    requires NoDoubleReference(links)
    ensures Acceptable(links) && ManagedNamesAlone(links) && TopologicalOrder(DesiredGraph(links), order)
  {
    assert TopologicalOrder(DesiredGraph(links), order) by {
      forall i, u | 0 <= i < |order| && Edge(DesiredGraph(links), u, order[i]) ensures u in order[..i] {
        assert DependsOn(links[order[i]], u);
      }
    }
    OrderedIsAcyclic(DesiredGraph(links), order);
  }

  lemma ThreeInOrder(links: Links, a: string, b: string, c: string)
    requires a != b && a != c && b != c && links.Keys == {a, b, c}
    requires forall r :: r in links ==> links[r].linkName == r && Supported(links[r])
    requires |GetDependencies(links[a])| == 0
    requires |GetDependencies(links[b])| == 1 && GetDependencies(links[b])[0].name == a
    requires |GetDependencies(links[c])| == 2
    requires GetDependencies(links[c])[0].name == a && GetDependencies(links[c])[1].name == b
    ensures Acceptable(links)
  {
    var order := [a, b, c];
    assert order[..1] == [a] && order[..2] == [a, b];
    assert NoDoubleReference(links);
    AcceptableInOrder(links, order);
  }

  /** A reference to a present link is an edge, with the reference as its data. */
  lemma ReferenceIsEdge(links: Links, r: string, i: nat)
    requires r in links && i < |GetDependencies(links[r])| && GetDependencies(links[r])[i].name in links
    requires forall k :: 0 <= k < i ==> GetDependencies(links[r])[k].name != GetDependencies(links[r])[i].name
    ensures var g, ref := DesiredGraph(links), GetDependencies(links[r])[i];
      Edge(g, ref.name, r) && g[ref.name][r] == ref
  {
    assert DependsOn(links[r], GetDependencies(links[r])[i].name);
  }

  ghost function DependentNames(g: Dependents, links: Links, root: string): set<string> {
    set v | v in g && v in links && MayBeSetDownWith(g, root, v) :: links[v].linkName
  }

  /** In a graph of links, whatever has a dependency is managed. */
  ghost predicate DependentsManaged(g: Dependents, links: Links) {
    && IsGraph(g) && g.Keys == links.Keys
    && forall u, v :: Edge(g, u, v) ==> IsManaged(links[v])
  }

  ghost predicate VisitDone(visit: Visit<string, LinkReference>, links: Links, down: set<string>) {
    visit.edge.Some? && visit.edge.value.data.setDown ==> visit.vertex in links && links[visit.vertex].linkName in down
  }

  ghost predicate VisitsDone(visits: seq<Visit<string, LinkReference>>, links: Links, down: set<string>) {
    forall j :: 0 <= j < |visits| ==> VisitDone(visits[j], links, down)
  }

  lemma OneMoreVisit(visits: seq<Visit<string, LinkReference>>, i: nat, links: Links, before: set<string>,
                     down: set<string>)
    requires i < |visits| && VisitsDone(visits[..i], links, before) && before <= down
    requires VisitDone(visits[i], links, down)
    ensures VisitsDone(visits[..i + 1], links, down)
  {
    forall j | 0 <= j < i ensures VisitDone(visits[j], links, down) {
      assert VisitDone(visits[..i][j], links, before);
    }
  }

  /** The search; no visit stops it before its end, and nothing is known of the order of iteration. */
  method FindDependents(g: Dependents, root: string)
    returns (visits: seq<Visit<string, LinkReference>>, ghost orders: Orders<string>)
    requires IsGraph(g) && root in g
    ensures Ranges(orders, g) && visits == SearchWith(g, orders, root)
  {
    var successors := AnyOrders(g);
    var completed;
    completed, visits := BFSWithEdge(g, successors, root, (_, _) => false);
    ghost var last := visits[|visits| - 1];
    assert completed;
    orders := successors;
  }

  /** The interfaces of the links found over a reference that asks to be set down. */
  ghost function SetDownNames(visits: seq<Visit<string, LinkReference>>, links: Links): set<string> {
    set v | v in links && FoundOverSetDown(visits, v) :: links[v].linkName
  }

  /** Dependents that must be set down are found so, and all that are may be set down. */
  lemma SetDownNamesFit(g: Dependents, orders: Orders<string>, root: string, links: Links)
    requires Ranges(orders, g) && root in g && DependentsManaged(g, links)
    ensures var names := SetDownNames(SearchWith(g, orders, root), links);
      && names <= DependentNames(g, links, root)
      && forall v :: SetDownWith(g, root, v) ==> v in links && links[v].linkName in names
  {
    forall v | SetDownWith(g, root, v) ensures v in links && FoundOverSetDown(SearchWith(g, orders, root), v) {
      FoundOverReference(g, orders, root, v);
    }
    forall v | v in links && FoundOverSetDown(SearchWith(g, orders, root), v) ensures MayBeSetDownWith(g, root, v) {
      var visits := SearchWith(g, orders, root);
      var places := SearchInTurn(g, orders, root);
      AllFound(g, orders, root, visits, places, v);
      FoundOverReference(g, orders, root, v);
    }
  }

  /**
   * What is known of a visit: only the root has no edge, and what an edge asks to set down is a managed link of
   * `names`.
   */
  ghost predicate VisitKnown(visit: Visit<string, LinkReference>, root: string, links: Links, names: set<string>) {
    if visit.vertex == root then visit.edge.None? else
      && visit.edge.Some?
      && (visit.edge.value.data.setDown ==>
            visit.vertex in links && IsManaged(links[visit.vertex]) && links[visit.vertex].linkName in names)
  }

  lemma VisitsKnown(g: Dependents, orders: Orders<string>, root: string, links: Links)
    requires Ranges(orders, g) && root in g && DependentsManaged(g, links)
    ensures var visits := SearchWith(g, orders, root);
      forall i :: 0 <= i < |visits| ==> VisitKnown(visits[i], root, links, SetDownNames(visits, links))
  {
    var visits := SearchWith(g, orders, root);
    var places := SearchInTurn(g, orders, root);
    var depth := SearchIsNearestFirst(g, orders, root, visits, places);
    forall i | 0 <= i < |visits| ensures VisitKnown(visits[i], root, links, SetDownNames(visits, links)) {
      if i > 0 {
        assert FoundOverNearest(g, root, visits[i]);
      }
    }
  }

  /** Visits one vertex: sets it down if the edge asks for it. The root has no edge. */
  method BringDownVisited(k: Netlink, status: Storage<NodeLinksStatus>, root: string, links: Links,
                          visit: Visit<string, LinkReference>, ghost names: set<string>, ghost start: Net,
                          ghost down: set<string>)
    returns (ok: bool, ghost down': set<string>)
    requires k.Valid() && k.net == DownAll(start, down) && VisitKnown(visit, root, links, names)
    modifies k`net, k`targets, k`faults, k`writes, status
    ensures k.Valid() && k.faults >= old(k.faults) && (ok <==> k.faults == old(k.faults))
    ensures k.net == DownAll(start, down') && down <= down' <= down + names
    ensures ok ==> VisitDone(visit, links, down')
    ensures old(k.targets) <= k.targets <= old(k.targets) + names
    ensures OnlyOperational(old(status.value), status.value)
  {
    ok, down' := true, down;
    if visit.vertex != root && visit.edge.value.data.setDown {
      var dependent := links[visit.vertex];
      assert IsManaged(dependent); // only managed links have dependencies
      ok := BringDownLink(k, status, dependent.linkName, start, down);
      if ok { down' := down + {dependent.linkName}; }
    }
  }

  /** Visits all vertices in turn, until a set-down fails. */
  method BringDownEach(k: Netlink, status: Storage<NodeLinksStatus>, root: string, links: Links,
                       visits: seq<Visit<string, LinkReference>>, ghost names: set<string>)
    returns (ok: bool, ghost down: set<string>)
    requires k.Valid() && forall i :: 0 <= i < |visits| ==> VisitKnown(visits[i], root, links, names)
    modifies k`net, k`targets, k`faults, k`writes, status
    ensures k.Valid() && k.faults >= old(k.faults) && (ok <==> k.faults == old(k.faults))
    ensures k.net == DownAll(old(k.net), down) && down <= names
    ensures ok ==> VisitsDone(visits, links, down)
    ensures old(k.targets) <= k.targets <= old(k.targets) + names
    ensures OnlyOperational(old(status.value), status.value)
  {
    ghost var start := k.net;
    ok, down := true, {};
    DownAllNothing(start);
    var i := 0;
    while i < |visits| && ok
      invariant 0 <= i <= |visits|
      invariant k.Valid() && k.faults >= old(k.faults) && (ok <==> k.faults == old(k.faults))
      invariant k.net == DownAll(start, down) && down <= names
      invariant ok ==> VisitsDone(visits[..i], links, down)
      invariant old(k.targets) <= k.targets <= old(k.targets) + names
      invariant OnlyOperational(old(status.value), status.value)
      decreases |visits| - i, ok
    {
      ghost var before := down;
      ok, down := BringDownVisited(k, status, root, links, visits[i], names, start, down);
      if ok { OneMoreVisit(visits, i, links, before, down); }
      i := i + 1;
    }
    assert ok ==> visits[..i] == visits;
  }

  /** Sets down the dependents of `root` found over a reference that asks for it, in breadth-first order. */
  method BringDownDependents(k: Netlink, status: Storage<NodeLinksStatus>, root: string, links: Links, g: Dependents)
    returns (ok: bool, ghost down: set<string>, ghost orders: Orders<string>)
    requires k.Valid() && root in g && DependentsManaged(g, links)
    modifies k`net, k`targets, k`faults, k`writes, status
    ensures k.Valid() && k.faults >= old(k.faults) && (ok <==> k.faults == old(k.faults))
    ensures Ranges(orders, g)
    ensures ok ==> down == SetDownNames(SearchWith(g, orders, root), links)
    ensures k.net == DownAll(old(k.net), down) && down <= DependentNames(g, links, root)
    ensures ok ==> forall v :: SetDownWith(g, root, v) ==> v in links && links[v].linkName in down
    ensures old(k.targets) <= k.targets <= old(k.targets) + DependentNames(g, links, root)
    ensures OnlyOperational(old(status.value), status.value)
  {
    var visits;
    visits, orders := FindDependents(g, root);
    VisitsKnown(g, orders, root, links);
    SetDownNamesFit(g, orders, root, links);
    ok, down := BringDownEach(k, status, root, links, visits, SetDownNames(visits, links));
  }

  // ---------- One link ----------

  /**
   * What happened on a link's turn: dependents were set down (`at`), and then perhaps the link was upserted (`after`).
   */
  datatype Turn = Turn(upserted: bool, at: Net, after: Net)

  ghost predicate TurnOf(links: Links, g: Dependents, r: string, before: Net, t: Turn)
    requires r in links
  {
    && (exists down :: down <= DependentNames(g, links, r) && t.at == DownAll(before, down))
    && (if t.upserted then Touched(t.at, t.after, links[r].linkName) else t.after == t.at)
    && (t.upserted ==> forall v :: SetDownWith(g, r, v) && v in links ==> DownOrAbsent(t.at, links[v].linkName))
  }

  lemma TurnHappened(links: Links, g: Dependents, r: string, before: Net, down: set<string>, t: Turn)
    requires r in links && down <= DependentNames(g, links, r) && t.at == DownAll(before, down)
    requires if t.upserted then Touched(t.at, t.after, links[r].linkName) else t.after == t.at
    requires t.upserted ==> forall v :: SetDownWith(g, r, v) ==> v in links && links[v].linkName in down
    ensures TurnOf(links, g, r, before, t)
  {
  }

  /** What is left of a turn that fails although no call does: a reason, and no VNID but the link's own. */
  ghost predicate Thwarted(ifs: Ifaces, links: Links, l: Link) {
    Hindered(ifs, links, l) && (Settled(ifs, l) || MissesRequired(links, l))
  }

  /** An upsert, in terms of the desired state. */
  method UpsertDesired(k: Netlink, links: Links, l: Link) returns (ok: bool)
    requires k.Valid() && IsManaged(l)
    modifies k
    ensures ActsOn(k, l.linkName)
    ensures IsManaged(l) && VnidFrom(old(k.net), k.net, l)
    ensures ok ==> Desired(k.net.ifaces, links, l)
    ensures !ok && k.faults == old(k.faults) ==> Thwarted(k.net.ifaces, links, l)
  {
    ok := Upsert(k, links, l);
    CheckMeansDesired(k.net, links, l);
  }

  /** An upsert gives the link's own interface no other VNID than the one the link asks for. */
  ghost predicate OwnVnid(links: Links, r: string, t: Turn)
    requires r in links
  {
    t.upserted ==> VnidFrom(t.at, t.after, links[r])
  }

  /** Sets the dependents down and, if that worked, upserts the link. */
  method SetDownAndUpsert(k: Netlink, status: Storage<NodeLinksStatus>, r: string, links: Links, g: Dependents)
    returns (ok: bool, ghost turn: Turn)
    requires k.Valid() && r in g && DependentsManaged(g, links) && IsManaged(links[r])
    modifies k, status
    ensures k.Valid() && k.faults >= old(k.faults)
    ensures TurnOf(links, g, r, old(k.net), turn) && OwnVnid(links, r, turn) && turn.after == k.net
    ensures ok ==> Desired(k.net.ifaces, links, links[r])
    ensures !ok && k.faults == old(k.faults) ==> Thwarted(k.net.ifaces, links, links[r])
    ensures k.owned <= old(k.owned) + {links[r].linkName}
    ensures old(k.targets) <= k.targets <= old(k.targets) + ManagedNames(links)
    ensures k.seen == old(k.seen)
    ensures OnlyOperational(old(status.value), status.value)
  {
    ghost var before, down := k.net, {};
    ghost var orders;
    ok, down, orders := BringDownDependents(k, status, r, links, g);
    turn := Turn(ok, k.net, k.net);
    DependentNamesManaged(g, links, r);
    if ok {
      ok := UpsertDesired(k, links, links[r]);
      turn := turn.(after := k.net);
    }
    TurnHappened(links, g, r, before, down, turn);
  }

  /** The check, in terms of the desired state. */
  method CheckDesired(k: Netlink, links: Links, l: Link) returns (c: Check)
    requires k.Valid() && Supported(l)
    modifies k`faults, k`seen
    ensures k.faults >= old(k.faults)
    ensures k.seen == old(k.seen) + if IsManaged(l) && k.faults == old(k.faults) then {l.linkName} else {}
    ensures !IsManaged(l) ==> c.NotNeeded?
    ensures c.NotNeeded? ==> Desired(k.net.ifaces, links, l) && (IsManaged(l) ==> k.faults == old(k.faults))
    ensures c.Needed? ==> !Desired(k.net.ifaces, links, l) && k.faults == old(k.faults)
    ensures c.CheckFailed? && k.faults == old(k.faults) ==> Thwarted(k.net.ifaces, links, l)
  {
    CheckMeansDesired(k.net, links, l);
    FailedCheckDangles(k.net, links, l);
    c := CheckUpsertNeeded(k, links, l);
  }

  lemma NoTurn(links: Links, g: Dependents, r: string, net: Net)
    requires r in links
    ensures TurnOf(links, g, r, net, Turn(false, net, net))
  {
    DownAllNothing(net);
  }

  /** Checks the link, and sets the dependents down and upserts it if needed. */
  method UpsertIfNeeded(k: Netlink, status: Storage<NodeLinksStatus>, r: string, links: Links, g: Dependents)
    returns (ok: bool, ghost turn: Turn)
    requires k.Valid() && r in g && DependentsManaged(g, links) && Supported(links[r])
    modifies k, status
    ensures k.Valid() && k.faults >= old(k.faults)
    ensures TurnOf(links, g, r, old(k.net), turn) && OwnVnid(links, r, turn) && turn.after == k.net
    ensures ok ==> Desired(k.net.ifaces, links, links[r])
    ensures Desired(old(k.net.ifaces), links, links[r]) ==> k.net == old(k.net) && k.writes == old(k.writes)
    ensures k.seen >= old(k.seen) && (ok && IsManaged(links[r]) ==> links[r].linkName in k.seen)
    ensures !IsManaged(links[r]) ==> ok && k.net == old(k.net)
    ensures !ok && k.faults == old(k.faults) ==> Thwarted(k.net.ifaces, links, links[r])
    // It needs the interfaces it refers to, but not that they are in their desired state.
    ensures IsManaged(links[r]) && k.faults == old(k.faults) ==> (ok <==> !Hindered(k.net.ifaces, links, links[r]))
    ensures k.owned <= old(k.owned) + (if IsManaged(links[r]) then {links[r].linkName} else {})
    ensures old(k.targets) <= k.targets <= old(k.targets) + ManagedNames(links)
    ensures OnlyOperational(old(status.value), status.value)
  {
    turn := Turn(false, k.net, k.net);
    NoTurn(links, g, r, k.net);
    var check := CheckDesired(k, links, links[r]);
    ok := check.NotNeeded?;
    if check.Needed? {
      ok, turn := SetDownAndUpsert(k, status, r, links, g);
    }
    if ok && IsManaged(links[r]) { DesiredIsNotHindered(k.net.ifaces, links, links[r]); }
  }

  lemma DesiredIsNotHindered(ifs: Ifaces, links: Links, l: Link)
    requires IsManaged(l) && Desired(ifs, links, l)
    ensures !Hindered(ifs, links, l)
  {
  }

  method UpsertLink(k: Netlink, status: Storage<NodeLinksStatus>, r: string, links: Links, g: Dependents)
    returns (ok: bool, ghost turn: Turn)
    requires k.Valid() && r in g && DependentsManaged(g, links) && Supported(links[r])
    modifies k, status
    ensures k.Valid() && k.faults >= old(k.faults)
    ensures TurnOf(links, g, r, old(k.net), turn) && OwnVnid(links, r, turn) && turn.after == k.net
    ensures ok ==> Desired(k.net.ifaces, links, links[r])
    ensures Desired(old(k.net.ifaces), links, links[r]) ==> k.net == old(k.net) && k.writes == old(k.writes)
    ensures k.seen >= old(k.seen)
    ensures ok && (IsManaged(links[r]) || k.faults == old(k.faults)) ==> links[r].linkName in k.seen
    ensures Availability(old(status.value), links[r].linkName) != Some(True) ==>
      !ok && k.net == old(k.net) && turn == Turn(false, k.net, k.net)
    ensures !IsManaged(links[r]) ==> k.net == old(k.net)
    ensures !IsManaged(links[r]) && Availability(old(status.value), links[r].linkName) == Some(True) ==> ok
    ensures !ok && k.faults == old(k.faults) && Availability(old(status.value), links[r].linkName) == Some(True) ==>
      Thwarted(k.net.ifaces, links, links[r])
    ensures k.faults == old(k.faults) && Availability(old(status.value), links[r].linkName) == Some(True) ==>
      IsManaged(links[r]) ==> (ok <==> !Hindered(k.net.ifaces, links, links[r]))
    ensures k.owned <= old(k.owned) + (if IsManaged(links[r]) then {links[r].linkName} else {})
    ensures old(k.targets) <= k.targets <= old(k.targets) + ManagedNames(links)
    ensures SameAvailability(old(status.value), status.value, {})
    ensures SameReady(old(status.value).linkConditions, status.value.linkConditions, {links[r].linkName})
    ensures ok ==> Condition(status.value.linkConditions, links[r].linkName, Ready) == Some(True)
    ensures !ok && Availability(old(status.value), links[r].linkName) == Some(True) ==>
      Condition(status.value.linkConditions, links[r].linkName, Ready) == Some(False)
    ensures Availability(old(status.value), links[r].linkName) == Some(False) ==> status.value == old(status.value)
  {
    var name := links[r].linkName;
    turn := Turn(false, k.net, k.net);
    NoTurn(links, g, r, k.net);
    if name !in status.value.linkConditions {
      SetLinkCondition(status, name, Ready, Unknown);
      return false, turn;
    }
    if Availability(status.value, name) != Some(True) { return false, turn; }
    ok, turn := UpsertIfNeeded(k, status, r, links, g);
    ReportOutcome(k, status, name, ok);
  }

  /** Records the outcome of the turn and, after a success, whether the interface is operationally up. */
  method ReportOutcome(k: Netlink, status: Storage<NodeLinksStatus>, name: string, ok: bool)
    modifies k`faults, k`seen, status
    ensures k.faults >= old(k.faults)
    ensures k.seen == old(k.seen) + if ok && k.faults == old(k.faults) then {name} else {}
    ensures !ok ==> k.faults == old(k.faults)
    ensures SameAvailability(old(status.value), status.value, {})
    ensures SameReady(old(status.value).linkConditions, status.value.linkConditions, {name})
    ensures Condition(status.value.linkConditions, name, Ready) == Some(if ok then True else False)
  {
    ghost var before, ready := status.value, if ok then True else False;
    SetLinkCondition(status, name, Ready, if ok then True else False);
    if ok {
      var operational := OperationalStatus(k, name);
      SetsOnlyOperational(status.value, name, operational);
      SetLinkCondition(status, name, OperationallyUp, operational);
    }
    OutcomeRecorded(before, status.value, name, ready);
  }

  /** Whether the interface is operationally up: an interface that tracks carrier may be up only administratively. */
  method OperationalStatus(k: Netlink, name: string) returns (c: ConditionStatus)
    modifies k`faults, k`seen
    ensures k.faults >= old(k.faults) && k.seen == old(k.seen) + if k.faults == old(k.faults) then {name} else {}
    ensures c == True ==> name in k.net.ifaces && k.net.ifaces[name].up
    ensures c == Unknown <==> k.faults > old(k.faults) || name !in k.net.ifaces
  {
    var link := k.LinkByName(name);
    if !link.LookupFailed? { k.seen := k.seen + {name}; }
    if !link.Found? { return Unknown; }
    var carrier: bool := *;
    c := if link.link.up && carrier then True else False;
  }

  lemma DependentNamesManaged(g: Dependents, links: Links, r: string)
    requires DependentsManaged(g, links)
    ensures DependentNames(g, links, r) <= ManagedNames(links)
  {
  }

  /** A check that fails although the kernel can be read met a required reference to a link that is not on the node. */
  lemma FailedCheckDangles(net: Net, links: Links, l: Link)
    requires net.Wf() && Supported(l)
    ensures IsUpsertNeeded(net.ifaces, links, l).CheckFailed? ==>
      SomeReferenceDangles(net.ifaces, links, l) && MissesRequired(links, l)
  {
    if l.spec.VxlanSpec? {
      assert l.spec.master.Some? ==> l.spec.master.value in GetDependencies(l);
      assert l.spec.device.Some? ==> l.spec.device.value in GetDependencies(l);
    }
  }

  // ---------- Consequences of one turn ----------

  lemma DownKeeps(net: Net, down: set<string>, t: set<string>)
    requires down <= t
    ensures Keeps(net, DownAll(net, down), t)
  {
    KeepsDownAll(net, down);
    KeepsMore(net, DownAll(net, down), down, t);
  }

  lemma TouchKeeps(a: Net, b: Net, name: string, t: set<string>)
    requires a.Wf() && Touched(a, b, name) && name in t
    ensures Keeps(a, b, t)
  {
    KeepsTouched(a, b, name);
    KeepsMore(a, b, {name}, t);
  }

  lemma TurnKeeps(links: Links, g: Dependents, r: string, before: Net, t: Turn)
    requires before.Wf() && r in links && DependentsManaged(g, links) && TurnOf(links, g, r, before, t)
    ensures t.at.Wf()
    ensures Keeps(before, t.after, DependentNames(g, links, r) + {links[r].linkName})
  {
    var down :| down <= DependentNames(g, links, r) && t.at == DownAll(before, down);
    var all := DependentNames(g, links, r) + {links[r].linkName};
    DownKeeps(before, down, all);
    assert t.at.Wf();
    if t.upserted {
      TouchKeeps(t.at, t.after, links[r].linkName, all);
      KeepsTransitive(before, t.at, t.after, all);
    }
  }

  /** An interface that is not the link's own stays down, or absent, through the turn. */
  lemma StaysDown(links: Links, g: Dependents, r: string, before: Net, t: Turn, name: string)
    requires before.Wf() && r in links && TurnOf(links, g, r, before, t) && name != links[r].linkName
    ensures DownOrAbsent(before, name) ==> DownOrAbsent(t.at, name)
    ensures DownOrAbsent(t.at, name) ==> DownOrAbsent(t.after, name)
  {
  }

  ghost predicate AllDesired(net: Net, links: Links) {
    forall r :: r in links ==> Desired(net.ifaces, links, links[r])
  }

  // ---------- The pass ----------

  /** The links as the pass gets them. */
  ghost predicate Planned(links: Links, g: Dependents, order: seq<string>) {
    && Acceptable(links) && ManagedNamesAlone(links)
    && g == DesiredGraph(links) && TopologicalOrder(g, order)
  }

  lemma PlannedGraph(links: Links, g: Dependents, order: seq<string>)
    requires Planned(links, g, order)
    ensures DependentsManaged(g, links)
    ensures forall d, r :: r in links && d in links ==> (Edge(g, d, r) <==> DependsOn(links[r], d))
  {
  }

  /** A link set down with its dependency's turn is up, as desired, after its own; the dependency never is desired. */
  ghost predicate UpDespiteDependency(links: Links, g: Dependents, dependency: string, dependent: string, first: Turn,
                                      second: Turn)
  {
    && Edge(g, dependency, dependent) && !g[dependency][dependent].optional && SetDownWith(g, dependency, dependent)
    && dependency in links && dependent in links
    && first.upserted && DownOrAbsent(first.after, links[dependent].linkName)
    && second.upserted && Desired(second.after.ifaces, links, links[dependent])
    && !Desired(first.after.ifaces, links, links[dependency]) && !Desired(second.after.ifaces, links, links[dependency])
  }

  /**
   * So a link comes up again on its own turn, whatever became of the dependency it was set down for: here the write of
   * the bridge's MTU fails, and the VXLAN enslaved to it is brought up all the same.
   */
  lemma ComesUpDespiteDependency(a: string, b: string, remote: IPv4)
    returns (links: Links, start: Net, turns: seq<Turn>)
    requires a != b
    ensures start.Wf() && NoUnmanagedRides(start, links) && Planned(links, DesiredGraph(links), [a, b])
    ensures |turns| == 2 && Run(links, DesiredGraph(links), [a, b], start, turns[1].after, turns)
    ensures UpDespiteDependency(links, DesiredGraph(links), a, b, turns[0], turns[1])
  {
    links := BridgeWithMember(a, b, remote);
    var down;
    start, down := BridgeWithMemberUp(links, a, b, remote);
    turns := [Turn(true, down, down), Turn(true, down, start)];
    DownThenUp(links, DesiredGraph(links), a, b, start, down);
  }

  /** Kernels in which the bridge has another MTU than the one asked for, and the VXLAN is as desired, or down. */
  lemma BridgeWithMemberUp(links: Links, a: string, b: string, remote: IPv4) returns (up: Net, down: Net)
    requires a != b && links.Keys == {a, b} && links[a] == Link(a, BridgeSpec(Some(9000)))
    requires var ref := LinkReference(a, false, true);
      links[b] == Link(b, VxlanSpec(1, remote, 4789, 4789, 4789, None, Some(ref), None, None))
    ensures up.Wf() && NoUnmanagedRides(up, links) && b in up.ifaces
    ensures down == DownAll(up, {b}) && DownOrAbsent(down, b)
    ensures !Desired(up.ifaces, links, links[a]) && !Desired(down.ifaces, links, links[a])
    ensures Desired(up.ifaces, links, links[b])
  {
    var bridge := Iface(1, Kind.Bridge, true, 1500, 0, 0, 0, 0, 0, 0, [], false);
    var member := Iface(2, Kind.Vxlan, true, 1500, 1, 0, 1, 4789, 4789, 4789, remote, true);
    up := Net(map[a := bridge, b := member], 3);
    down := DownAll(up, {b});
  }

  /** `b` is set down on the turn of `a`, the upsert of which fails at once, and is brought up on its own. */
  lemma DownThenUp(links: Links, g: Dependents, a: string, b: string, up: Net, down: Net)
    requires a != b && links.Keys == {a, b} && links[b].linkName == b && b in up.ifaces && down == DownAll(up, {b})
    requires b in g && MayBeSetDownWith(g, a, b) && forall v :: !SetDownWith(g, b, v)
    ensures Run(links, g, [a, b], up, up, [Turn(true, down, down), Turn(true, down, up)])
  {
    var first, second := Turn(true, down, down), Turn(true, down, up);
    FirstTurn(links, g, a, b, up, down);
    SecondTurn(links, g, b, up, down);
    RunStep(links, g, [a, b], up, up, [], first);
    RunStep(links, g, [a, b], up, down, [first], second);
    assert [] + [first] == [first] && [first] + [second] == [first, second];
  }

  lemma FirstTurn(links: Links, g: Dependents, a: string, b: string, up: Net, down: Net)
    requires a != b && links.Keys == {a, b} && links[b].linkName == b && down == DownAll(up, {b})
    requires b in g && MayBeSetDownWith(g, a, b)
    ensures TurnOf(links, g, a, up, Turn(true, down, down))
  {
    assert b in DependentNames(g, links, a);
  }

  lemma SecondTurn(links: Links, g: Dependents, b: string, up: Net, down: Net)
    requires b in links && links[b].linkName == b && b in up.ifaces && down == DownAll(up, {b})
    requires forall v :: !SetDownWith(g, b, v)
    ensures TurnOf(links, g, b, down, Turn(true, down, up))
  {
    DownAllNothing(down);
    assert up.ifaces == down.ifaces[b := up.ifaces[b]];
    assert InPlace(down, up, b);
  }

  /** A bridge that asks for an MTU, and a VXLAN that is to be set down when the bridge changes. */
  lemma BridgeWithMember(a: string, b: string, remote: IPv4) returns (links: Links)
    requires a != b
    ensures links.Keys == {a, b} && Planned(links, DesiredGraph(links), [a, b])
    ensures links[a] == Link(a, BridgeSpec(Some(9000)))
    ensures var ref := LinkReference(a, false, true);
      && links[b] == Link(b, VxlanSpec(1, remote, 4789, 4789, 4789, None, Some(ref), None, None))
      && Edge(DesiredGraph(links), a, b) && DesiredGraph(links)[a][b] == ref
    ensures SetDownWith(DesiredGraph(links), a, b) && MayBeSetDownWith(DesiredGraph(links), a, b)
    ensures forall v :: !SetDownWith(DesiredGraph(links), b, v)
  {
    var ref := LinkReference(a, false, true);
    var member := Link(b, VxlanSpec(1, remote, 4789, 4789, 4789, None, Some(ref), None, None));
    links := map[a := Link(a, BridgeSpec(Some(9000))), b := member];
    assert GetDependencies(member) == [ref];
    assert Planned(links, DesiredGraph(links), [a, b]) by {
      assert [a, b][..1] == [a];
      AcceptableInOrder(links, [a, b]);
    }
    NothingDependsOnLast(links, a, b);
    ReferenceIsEdge(links, b, 0);
    DirectReferenceDecides(DesiredGraph(links), a, b);
  }

  lemma NothingDependsOnLast(links: Links, a: string, b: string)
    requires links.Keys == {a, b} && TopologicalOrder(DesiredGraph(links), [a, b])
    ensures forall v :: !SetDownWith(DesiredGraph(links), b, v)
  {
    var g, order := DesiredGraph(links), [a, b];
    assert order[..1] == [a];
    forall v | SetDownWith(g, b, v) ensures false {
      ReachableIsLater(g, order, 1, v);
      ReachedWithin(g, b, v, {a, b});
    }
  }

  /** A link that `r` depends on, or `r` itself, failed. */
  ghost predicate Tainted(g: Dependents, failed: set<string>, r: string) {
    exists x :: x in failed && Reaches(g, x, r)
  }

  /** Every processed link is good, or tainted by a failure. */
  ghost predicate Sorted(g: Dependents, done: seq<string>, good: set<string>, failed: set<string>) {
    && good + failed <= (set r | r in done)
    && forall r :: r in done ==> r in good || Tainted(g, failed, r)
  }

  /** The good links after one more turn. */
  ghost function NextGood(links: Links, good: set<string>, r: string, ok: bool): set<string>
    requires r in links
  {
    if ok && (forall d :: DependsOn(links[r], d) && d in links ==> d in good) then good + {r} else good
  }

  lemma SortedStep(links: Links, g: Dependents, order: seq<string>, i: nat, good: set<string>, failed: set<string>,
                   ok: bool)
    requires Planned(links, g, order) && i < |order| && order[i] in links
    requires Sorted(g, order[..i], good, failed)
    ensures Sorted(g, order[..i + 1], NextGood(links, good, order[i], ok), if ok then failed else failed + {order[i]})
  {
    var r := order[i];
    var good', failed' := NextGood(links, good, r, ok), if ok then failed else failed + {r};
    forall x | x in order[..i + 1] ensures x in good' || Tainted(g, failed', x) {
      if x != r {
        if x !in good {
          var y :| y in failed && Reaches(g, y, x);
          assert y in failed';
        }
      } else if !ok {
        ReachesItself(g, r);
        assert r in failed';
      } else if r !in good' {
        var d :| DependsOn(links[r], d) && d in links && d !in good;
        PlannedGraph(links, g, order);
        assert Edge(g, d, order[i]);
        var y :| y in failed && Reaches(g, y, d);
        ReachesStep(g, y, d, r);
        assert y in failed';
      }
    }
  }

  /** The turn of a later link leaves the good ones sound. */
  lemma SoundStep(links: Links, g: Dependents, order: seq<string>, i: nat, before: Net, t: Turn, good: set<string>,
                  ext: set<string>, ok: bool)
    requires Planned(links, g, order) && i < |order| && order[i] in links
    requires good <= (set r | r in order[..i]) && Sound(before, links, good, ext) && ext !! ManagedNames(links)
    requires TurnOf(links, g, order[i], before, t) && t.after.Wf()
    requires !IsManaged(links[order[i]]) ==> t.after == before
    requires ok ==> Desired(t.after.ifaces, links, links[order[i]])
    ensures Sound(t.after, links, NextGood(links, good, order[i], ok), ext)
  {
    var r := order[i];
    PlannedGraph(links, g, order);
    if IsManaged(links[r]) {
      TurnKeeps(links, g, r, before, t);
      DependentNamesManaged(g, links, r);
      LaterNamesAreNotGood(links, g, order, i, good);
      SoundKeeps(before, t.after, links, good, ext, DependentNames(g, links, r) + {links[r].linkName});
    }
    var good' := NextGood(links, good, r, ok);
    if good' != good {
      assert SoundLink(t.after, links, good, r);
      SoundGrows(t.after, links, good, ext, r);
    }
  }

  /** The names that the turn of the i-th link may touch belong to no good link. */
  lemma LaterNamesAreNotGood(links: Links, g: Dependents, order: seq<string>, i: nat, good: set<string>)
    requires Planned(links, g, order) && i < |order| && order[i] in links && IsManaged(links[order[i]])
    requires DependentsManaged(g, links) && good <= (set r | r in order[..i])
    ensures DependentNames(g, links, order[i]) + {links[order[i]].linkName} !! Names(links, good)
  {
    var r := order[i];
    forall n | n in DependentNames(g, links, r) + {links[r].linkName} ensures n !in Names(links, good) {
      var v :| v in links && links[v].linkName == n && (v == r || MayBeSetDownWith(g, r, v));
      if v != r {
        ReachableIsLater(g, order, i, v);
        DependentsAreManaged(g, links, r, v);
      }
      assert v !in good;
    }
  }

  /** From the turn that upserts a link until their own, its dependents that ask for it are down or absent. */
  ghost predicate SetDownSafe(links: Links, g: Dependents, order: seq<string>, turns: seq<Turn>)
    requires |turns| <= |order|
  {
    forall j {:trigger SetDownSafeAt(links, g, order, turns, j)} ::
      0 <= j < |turns| ==> SetDownSafeAt(links, g, order, turns, j)
  }

  ghost predicate SetDownSafeAt(links: Links, g: Dependents, order: seq<string>, turns: seq<Turn>, j: nat)
    requires j < |turns| <= |order|
  {
    forall i, v :: 0 <= i <= j && turns[i].upserted && SetDownWith(g, order[i], v) && v in links && v !in order[..j + 1]
      ==> DownOrAbsent(turns[j].at, links[v].linkName) && DownOrAbsent(turns[j].after, links[v].linkName)
  }

  lemma SetDownStep(links: Links, g: Dependents, order: seq<string>, turns: seq<Turn>, before: Net, t: Turn)
    requires Planned(links, g, order) && before.Wf() && |turns| < |order| && order[|turns|] in links
    requires SetDownSafe(links, g, order, turns) && (turns != [] ==> turns[|turns| - 1].after == before)
    requires TurnOf(links, g, order[|turns|], before, t)
    ensures SetDownSafe(links, g, order, turns + [t])
  {
    var n, turns' := |turns|, turns + [t];
    forall j | 0 <= j < |turns'| ensures SetDownSafeAt(links, g, order, turns', j) {
      if j < n {
        assert SetDownSafeAt(links, g, order, turns, j);
      } else {
        forall i, v |
          && 0 <= i <= n && turns'[i].upserted && SetDownWith(g, order[i], v)
          && v in links && v !in order[..n + 1]
          ensures DownOrAbsent(t.at, links[v].linkName) && DownOrAbsent(t.after, links[v].linkName)
        {
          if i < n { StillDownBefore(links, g, order, turns, i, v); }
          SetDownStaysDown(links, g, order, i, n, before, t, v);
        }
      }
    }
  }

  lemma StillDownBefore(links: Links, g: Dependents, order: seq<string>, turns: seq<Turn>, i: nat, v: string)
    requires i < |turns| < |order| && SetDownSafe(links, g, order, turns)
    requires turns[i].upserted && SetDownWith(g, order[i], v) && v in links && v !in order[..|turns| + 1]
    ensures DownOrAbsent(turns[|turns| - 1].after, links[v].linkName)
  {
    assert SetDownSafeAt(links, g, order, turns, |turns| - 1);
    assert v !in order[..|turns|];
  }

  lemma SetDownStaysDown(links: Links, g: Dependents, order: seq<string>, i: nat, n: nat, before: Net, t: Turn,
                         v: string)
    requires Planned(links, g, order) && before.Wf() && i <= n < |order| && order[n] in links
    requires TurnOf(links, g, order[n], before, t)
    requires SetDownWith(g, order[i], v) && v in links && v !in order[..n + 1]
    requires if i == n then t.upserted else DownOrAbsent(before, links[v].linkName)
    ensures DownOrAbsent(t.at, links[v].linkName) && DownOrAbsent(t.after, links[v].linkName)
  {
    PlannedGraph(links, g, order);
    DependentsAreManaged(g, links, order[i], v);
    assert order[n] in order[..n + 1];
    StaysDown(links, g, order[n], before, t, links[v].linkName);
  }

  lemma DependentsAreManaged(g: Dependents, links: Links, r: string, v: string)
    requires DependentsManaged(g, links) && Reaches(g, r, v) && v != r && v in links
    ensures IsManaged(links[v])
  {
    var p :| Path(g, r, v, p);
    assert Edge(g, p[|p| - 2], p[|p| - 1]);
  }

  /** Links that miss a required dependency stay down, if they are, through every turn. */
  ghost predicate MissingStayDown(links: Links, start: Net, turns: seq<Turn>) {
    forall j {:trigger MissingDownAt(links, start, turns, j)} ::
      0 <= j < |turns| ==> MissingDownAt(links, start, turns, j)
  }

  ghost predicate MissingDownAt(links: Links, start: Net, turns: seq<Turn>, j: nat)
    requires j < |turns|
  {
    MissingStillDown(links, start, turns[j].at) && MissingStillDown(links, start, turns[j].after)
  }

  ghost predicate MissingStillDown(links: Links, start: Net, net: Net) {
    forall r :: r in links && MissesRequired(links, links[r]) && DownOrAbsent(start, links[r].linkName)
      ==> DownOrAbsent(net, links[r].linkName)
  }

  lemma MissingTurn(links: Links, g: Dependents, order: seq<string>, r: string, start: Net, before: Net, t: Turn)
    requires Planned(links, g, order) && before.Wf() && r in links && TurnOf(links, g, r, before, t)
    requires MissesRequired(links, links[r]) ==> t == Turn(false, before, before)
    requires MissingStillDown(links, start, before)
    ensures MissingStillDown(links, start, t.at) && MissingStillDown(links, start, t.after)
  {
    forall x | x in links && x != r && MissesRequired(links, links[x]) && DownOrAbsent(start, links[x].linkName)
      ensures DownOrAbsent(t.at, links[x].linkName) && DownOrAbsent(t.after, links[x].linkName)
    {
      assert IsManaged(links[x]);
      StaysDown(links, g, r, before, t, links[x].linkName);
    }
  }

  lemma MissingStep(links: Links, g: Dependents, order: seq<string>, start: Net, turns: seq<Turn>, before: Net, t: Turn)
    requires Planned(links, g, order) && before.Wf() && |turns| < |order| && order[|turns|] in links
    requires MissingStayDown(links, start, turns)
    requires before == if turns == [] then start else turns[|turns| - 1].after
    requires TurnOf(links, g, order[|turns|], before, t)
    requires MissesRequired(links, links[order[|turns|]]) ==> t == Turn(false, before, before)
    ensures MissingStayDown(links, start, turns + [t])
  {
    var n, turns' := |turns|, turns + [t];
    if n > 0 { assert MissingDownAt(links, start, turns, n - 1); }
    MissingTurn(links, g, order, order[n], start, before, t);
    forall j | 0 <= j < |turns'| ensures MissingDownAt(links, start, turns', j) {
      if j < n { assert MissingDownAt(links, start, turns, j); }
    }
  }

  /** A reason for `r` to fail that no netlink call is to blame for. */
  ghost predicate Explained(links: Links, g: Dependents, net: Net, r: string) {
    exists x :: x in links && Reaches(g, x, r) && Culprit(links, net, x)
  }

  ghost predicate Culprit(links: Links, net: Net, x: string)
    requires x in links
  {
    Blamed(links, net, net, x)
  }

  /** `x` misses a dependency, is unmanaged and has no interface in the end, or its VNID was taken in the beginning. */
  ghost predicate Blamed(links: Links, before: Net, after: Net, x: string)
    requires x in links
  {
    || MissesRequired(links, links[x])
    || (!IsManaged(links[x]) && links[x].linkName !in after.ifaces)
    || VnidTaken(links, before, x)
  }

  /** Another link asks for the same VNID, or another interface has it. */
  ghost predicate VnidTaken(links: Links, net: Net, x: string)
    requires x in links
  {
    && links[x].spec.VxlanSpec?
    && ((exists y :: y in links && y != x && links[y].spec.VxlanSpec? && links[y].spec.vnid == links[x].spec.vnid)
        || (exists m :: m in net.ifaces && m != links[x].linkName && net.ifaces[m].kind.Vxlan?
                        && net.ifaces[m].vnid == links[x].spec.vnid))
  }

  /** Every VXLAN has the VNID it began with, or the one that a link of its name asks for. */
  ghost predicate VnidsFrom(links: Links, start: Net, net: Net) {
    forall m :: m in net.ifaces && net.ifaces[m].kind.Vxlan? ==> VnidKnown(links, start, m, net.ifaces[m].vnid)
  }

  ghost predicate VnidKnown(links: Links, start: Net, m: string, vnid: int) {
    || (m in start.ifaces && start.ifaces[m].kind.Vxlan? && start.ifaces[m].vnid == vnid)
    || (exists y :: y in links && links[y].linkName == m && links[y].spec.VxlanSpec? && links[y].spec.vnid == vnid)
  }

  /** A VXLAN has the VNID it had before the turn, or the link's own. */
  lemma TurnVnid(links: Links, g: Dependents, r: string, net: Net, t: Turn, m: string)
    requires r in links && TurnOf(links, g, r, net, t) && OwnVnid(links, r, t)
    requires m in t.after.ifaces && t.after.ifaces[m].kind.Vxlan?
    ensures
      || (m in net.ifaces && net.ifaces[m].kind.Vxlan? && net.ifaces[m].vnid == t.after.ifaces[m].vnid)
      || (links[r].linkName == m && links[r].spec.VxlanSpec? && links[r].spec.vnid == t.after.ifaces[m].vnid)
  {
    if t.upserted && m == links[r].linkName {
      assert VnidFrom(t.at, t.after, links[r]);
    }
  }

  lemma VnidsStep(links: Links, g: Dependents, r: string, start: Net, net: Net, t: Turn)
    requires r in links && VnidsFrom(links, start, net) && TurnOf(links, g, r, net, t) && OwnVnid(links, r, t)
    ensures VnidsFrom(links, start, t.after)
  {
    forall m | m in t.after.ifaces && t.after.ifaces[m].kind.Vxlan?
      ensures VnidKnown(links, start, m, t.after.ifaces[m].vnid)
    {
      TurnVnid(links, g, r, net, t, m);
      if m in net.ifaces && net.ifaces[m].kind.Vxlan? && net.ifaces[m].vnid == t.after.ifaces[m].vnid {
        assert VnidKnown(links, start, m, net.ifaces[m].vnid);
      }
    }
  }

  /** A link that misses nothing has no interface with the VNID of another link. */
  ghost predicate SettledLink(links: Links, net: Net, r: string)
    requires r in links
  {
    IsManaged(links[r]) && !MissesRequired(links, links[r]) ==> Settled(net.ifaces, links[r])
  }

  ghost predicate SettledSoFar(links: Links, net: Net, done: seq<string>) {
    forall r :: r in done && r in links ==> SettledLink(links, net, r)
  }

  ghost predicate AllSettled(links: Links, net: Net) {
    forall r {:trigger SettledLink(links, net, r)} :: r in links ==> SettledLink(links, net, r)
  }

  lemma SettledStep(links: Links, g: Dependents, order: seq<string>, i: nat, net: Net, t: Turn)
    requires Planned(links, g, order) && i < |order| && order[i] in links
    requires TurnOf(links, g, order[i], net, t) && OwnVnid(links, order[i], t)
    requires SettledSoFar(links, net, order[..i]) && SettledLink(links, t.after, order[i])
    ensures SettledSoFar(links, t.after, order[..i + 1])
  {
    forall r | r in order[..i + 1] && r in links ensures SettledLink(links, t.after, r) {
      var m := links[r].linkName;
      if r != order[i] && IsManaged(links[r]) && m in t.after.ifaces && t.after.ifaces[m].kind.Vxlan? {
        assert SettledLink(links, net, r);
        TurnVnid(links, g, order[i], net, t, m);
      }
    }
  }

  /**
   * Once all that is settled, a VNID is taken only if two links ask for it, or an interface that no managed link claims
   * has it.
   */
  lemma VnidTakenExactly(links: Links, net: Net, x: string)
    requires x in links && links[x].spec.VxlanSpec?
    requires AllSettled(links, net) && forall r :: r in links ==> !MissesRequired(links, links[r])
    ensures VnidTaken(links, net, x) <==> VnidContested(links, x) || VnidHeldOutside(links, net, x)
  {
    forall m | m in net.ifaces && m in ManagedNames(links) && net.ifaces[m].kind.Vxlan?
      ensures exists y :: y in links && links[y].linkName == m && links[y].spec.VxlanSpec? &&
                          links[y].spec.vnid == net.ifaces[m].vnid
    {
      var y :| y in links && IsManaged(links[y]) && links[y].linkName == m;
      assert SettledLink(links, net, y);
    }
  }

  /** Another link asks for the same VNID. */
  ghost predicate VnidContested(links: Links, x: string)
    requires x in links && links[x].spec.VxlanSpec?
  {
    exists y :: y in links && y != x && links[y].spec.VxlanSpec? && links[y].spec.vnid == links[x].spec.vnid
  }

  /** An interface that no managed link claims has the VNID. */
  ghost predicate VnidHeldOutside(links: Links, net: Net, x: string)
    requires x in links && links[x].spec.VxlanSpec?
  {
    exists m :: m in net.ifaces && m !in ManagedNames(links) && net.ifaces[m].kind.Vxlan?
                && net.ifaces[m].vnid == links[x].spec.vnid
  }

  lemma FailureExplained(links: Links, g: Dependents, order: seq<string>, i: nat, start: Net, net: Net,
                         good: set<string>, failed: set<string>, ext: set<string>)
    requires Planned(links, g, order) && i < |order| && order[i] in links
    requires Sorted(g, order[..i], good, failed) && Sound(net, links, good, ext)
    requires forall n :: n in ext ==> (n in start.ifaces <==> n in net.ifaces)
    requires forall f :: f in failed ==> Explained(links, g, start, f)
    requires VnidsFrom(links, start, net)
    requires MissesRequired(links, links[order[i]]) || Hindered(net.ifaces, links, links[order[i]])
    ensures Explained(links, g, start, order[i])
  {
    var r := order[i];
    var l := links[r];
    PlannedGraph(links, g, order);
    ReachesItself(g, r);
    if VnidInUse(net.ifaces, l) {
      var m :| m in net.ifaces && net.ifaces[m].kind.Vxlan? && net.ifaces[m].vnid == l.spec.vnid;
      assert VnidKnown(links, start, m, l.spec.vnid);
      assert Culprit(links, start, r);
    } else if !MissesRequired(links, l) {
      var ref := if Dangles(net.ifaces, l.spec.device, links) then l.spec.device.value else l.spec.master.value;
      assert ref in GetDependencies(l);
      var d := ref.name;
      assert d in links && links[d].linkName !in net.ifaces;
      assert DependsOn(l, d);
      assert Edge(g, d, order[i]);
      if IsManaged(links[d]) {
        assert d in good ==> SoundLink(net, links, good, d);
        var f :| f in failed && Reaches(g, f, d);
        var x :| x in links && Reaches(g, x, f) && Culprit(links, start, x);
        ReachesTransitive(g, x, f, d);
        ReachesStep(g, x, d, r);
      } else {
        assert links[d].linkName in UnmanagedNames(links);
        ReachesItself(g, d);
        ReachesStep(g, d, d, r);
        assert Culprit(links, start, d);
      }
    }
  }

  lemma ExternalStays(links: Links, g: Dependents, r: string, before: Net, t: Turn, ext: set<string>)
    requires before.Wf() && r in links && DependentsManaged(g, links) && TurnOf(links, g, r, before, t)
    requires !IsManaged(links[r]) ==> t.after == before
    requires Closed(before.ifaces, ext) && ext !! ManagedNames(links)
    ensures forall n :: n in ext ==> (n in before.ifaces <==> n in t.after.ifaces)
    ensures Keeps(before, t.after, ManagedNames(links))
  {
    if IsManaged(links[r]) {
      TurnKeeps(links, g, r, before, t);
      DependentNamesManaged(g, links, r);
      KeepsMore(before, t.after, DependentNames(g, links, r) + {links[r].linkName}, ManagedNames(links));
      assert Spared(before, t.after, ext);
    } else {
      KeepsNothing(before, ManagedNames(links));
    }
  }

  /** From `start` to `net` the pass worked on managed links only, and not at all if there was nothing to do. */
  ghost predicate Confined(links: Links, start: Net, net: Net) {
    && (forall n :: n in External(start, links) ==> (n in start.ifaces <==> n in net.ifaces))
    && Keeps(start, net, ManagedNames(links))
    && (AllDesired(start, links) ==> net == start)
    && VnidsFrom(links, start, net)
    && net.ifaces.Keys <= start.ifaces.Keys + ManagedNames(links)
  }

  lemma ConfinedStep(links: Links, g: Dependents, r: string, start: Net, net: Net, t: Turn)
    requires DependentsManaged(g, links) && r in links && net.Wf()
    requires Confined(links, start, net) && NoUnmanagedRides(start, links)
    requires Closed(net.ifaces, External(start, links))
    requires TurnOf(links, g, r, net, t) && OwnVnid(links, r, t)
    requires !IsManaged(links[r]) || Desired(net.ifaces, links, links[r]) ==> t.after == net
    ensures Confined(links, start, t.after)
  {
    ExternalIsClosed(start, links);
    ExternalStays(links, g, r, net, t, External(start, links));
    KeepsTransitive(start, net, t.after, ManagedNames(links));
    VnidsStep(links, g, r, start, net, t);
    if AllDesired(start, links) { assert Desired(net.ifaces, links, links[r]); }
  }

  /** What the pass has achieved for the links processed so far: from `start` it reached `net`. */
  ghost predicate Progress(links: Links, g: Dependents, done: seq<string>, start: Net, net: Net, good: set<string>,
                           failed: set<string>, faultless: bool)
  {
    && Sorted(g, done, good, failed)
    && Sound(net, links, good, External(start, links))
    && (faultless ==> SettledSoFar(links, net, done) && forall f :: f in failed ==> Explained(links, g, start, f))
  }

  lemma ProgressStep(links: Links, g: Dependents, order: seq<string>, i: nat, start: Net, net: Net, good: set<string>,
                     failed: set<string>, faultless: bool, t: Turn, ok: bool, faultless': bool)
    requires NoUnmanagedRides(start, links) && Confined(links, start, t.after)
    requires Planned(links, g, order) && i < |order| && order[i] in links
    requires Progress(links, g, order[..i], start, net, good, failed, faultless)
    requires TurnOf(links, g, order[i], net, t) && OwnVnid(links, order[i], t) && t.after.Wf()
    requires ok ==> Desired(t.after.ifaces, links, links[order[i]])
    requires !IsManaged(links[order[i]]) ==> t.after == net
    requires faultless' ==> faultless
    requires faultless' && !ok ==>
      MissesRequired(links, links[order[i]]) || Thwarted(t.after.ifaces, links, links[order[i]])
    ensures Progress(links, g, order[..i + 1], start, t.after, NextGood(links, good, order[i], ok),
                     if ok then failed else failed + {order[i]}, faultless')
  {
    var ext := External(start, links);
    ExternalIsClosed(start, links);
    SortedStep(links, g, order, i, good, failed, ok);
    SoundStep(links, g, order, i, net, t, good, ext, ok);
    if faultless' {
      SettledStep(links, g, order, i, net, t);
      if !ok { FailureExplained(links, g, order, i, start, t.after, good, failed, ext); }
    }
  }

  /** The turns lead from `start` to `net`, one per link. */
  ghost predicate Run(links: Links, g: Dependents, order: seq<string>, start: Net, net: Net, turns: seq<Turn>) {
    && |turns| <= |order|
    && (forall i {:trigger TurnAt(links, g, order, start, turns, i)} ::
          0 <= i < |turns| ==> TurnAt(links, g, order, start, turns, i))
    && net == if turns == [] then start else turns[|turns| - 1].after
  }

  ghost predicate TurnAt(links: Links, g: Dependents, order: seq<string>, start: Net, turns: seq<Turn>, i: nat)
    requires i < |turns| <= |order|
  {
    order[i] in links && TurnOf(links, g, order[i], if i == 0 then start else turns[i - 1].after, turns[i])
  }

  lemma RunStep(links: Links, g: Dependents, order: seq<string>, start: Net, net: Net, turns: seq<Turn>, t: Turn)
    requires Run(links, g, order, start, net, turns)
    requires |turns| < |order| && order[|turns|] in links && TurnOf(links, g, order[|turns|], net, t)
    ensures Run(links, g, order, start, t.after, turns + [t])
  {
    var turns' := turns + [t];
    forall i | 0 <= i < |turns'| ensures TurnAt(links, g, order, start, turns', i) {
      if i < |turns| { assert TurnAt(links, g, order, start, turns, i); }
    }
  }

  /** How the pass went for the first links in the order. */
  ghost predicate History(links: Links, g: Dependents, order: seq<string>, start: Net, net: Net, turns: seq<Turn>) {
    && Run(links, g, order, start, net, turns)
    && SetDownSafe(links, g, order, turns)
    && MissingStayDown(links, start, turns)
  }

  /** What it led to. */
  ghost predicate Outcome(links: Links, g: Dependents, done: seq<string>, start: Net, net: Net, good: set<string>,
                          failed: set<string>, faultless: bool)
  {
    && Confined(links, start, net)
    && Progress(links, g, done, start, net, good, failed, faultless)
  }

  ghost predicate MissingFailed(links: Links, done: seq<string>, failed: set<string>) {
    && (forall r :: r in done && r in links && MissesRequired(links, links[r]) ==> r in failed)
    && (forall r :: r in failed ==> r in done && r in links && IsManaged(links[r]))
  }

  lemma PassBegins(links: Links, g: Dependents, order: seq<string>, start: Net)
    requires start.Wf() && NoUnmanagedRides(start, links)
    ensures History(links, g, order, start, start, [])
    ensures Outcome(links, g, [], start, start, {}, {}, true)
  {
    ExternalIsClosed(start, links);
    KeepsNothing(start, ManagedNames(links));
  }

  lemma HistoryStep(links: Links, g: Dependents, order: seq<string>, start: Net, net: Net, turns: seq<Turn>, t: Turn)
    requires Planned(links, g, order) && net.Wf() && |turns| < |order| && order[|turns|] in links
    requires History(links, g, order, start, net, turns)
    requires TurnOf(links, g, order[|turns|], net, t)
    requires MissesRequired(links, links[order[|turns|]]) ==> t == Turn(false, net, net)
    ensures History(links, g, order, start, t.after, turns + [t])
  {
    RunStep(links, g, order, start, net, turns, t);
    SetDownStep(links, g, order, turns, net, t);
    MissingStep(links, g, order, start, turns, net, t);
  }

  lemma OutcomeStep(links: Links, g: Dependents, order: seq<string>, i: nat, start: Net, net: Net, good: set<string>,
                    failed: set<string>, faultless: bool, t: Turn, ok: bool, faultless': bool)
    requires NoUnmanagedRides(start, links) && t.after.Wf()
    requires Planned(links, g, order) && i < |order| && order[i] in links
    requires Outcome(links, g, order[..i], start, net, good, failed, faultless)
    requires TurnOf(links, g, order[i], net, t) && OwnVnid(links, order[i], t)
    requires ok ==> Desired(t.after.ifaces, links, links[order[i]])
    requires !IsManaged(links[order[i]]) || Desired(net.ifaces, links, links[order[i]]) ==> t.after == net
    requires faultless' ==> faultless
    requires faultless' && !ok ==>
      MissesRequired(links, links[order[i]]) || Thwarted(t.after.ifaces, links, links[order[i]])
    ensures Outcome(links, g, order[..i + 1], start, t.after, NextGood(links, good, order[i], ok),
                    if ok then failed else failed + {order[i]}, faultless')
  {
    PlannedGraph(links, g, order);
    ConfinedStep(links, g, order[i], start, net, t);
    ProgressStep(links, g, order, i, start, net, good, failed, faultless, t, ok, faultless');
  }

  /** Once all links are processed, those that no failure taints are in their desired state. */
  lemma PassEnds(links: Links, g: Dependents, order: seq<string>, start: Net, net: Net, good: set<string>,
                 failed: set<string>, faultless: bool)
    requires Planned(links, g, order) && NoUnmanagedRides(start, links)
    requires Outcome(links, g, order, start, net, good, failed, faultless)
    ensures forall r :: r in links && !Tainted(g, failed, r) ==> Desired(net.ifaces, links, links[r])
    ensures failed == {} ==> AllDesired(net, links)
    ensures faultless ==> forall r :: r in failed ==> Explained(links, g, start, r)
    ensures faultless ==> AllSettled(links, net)
    ensures NoUnmanagedRides(net, links) && failed <= links.Keys
  {
    forall r | r in links && !Tainted(g, failed, r) ensures Desired(net.ifaces, links, links[r]) {
      assert SoundLink(net, links, good, r);
    }
    ExternalIsClosed(start, links);
    ClosedMeansNoRides(net, links, External(start, links));
  }

  lemma OrderedLink(links: Links, g: Dependents, order: seq<string>, i: nat)
    requires Planned(links, g, order) && i < |order|
    ensures order[i] in links && order[i] in g && Supported(links[order[i]])
    ensures order[..i + 1] == order[..i] + [order[i]] && order[i] !in order[..i]
  {
    assert order[i] in order;
  }

  /**
   * The Ready conditions after the turns of `done`: True exactly for the links that did not fail. A link that misses a
   * required dependency keeps the condition that the check for those left.
   */
  ghost predicate Reported(s: map<string, Conditions>, t: map<string, Conditions>, links: Links, done: seq<string>,
                           failed: set<string>)
  {
    && SameReady(s, t, set r | r in done && r in links :: links[r].linkName)
    && forall r :: r in done && r in links ==> ReportedLink(s, t, links, r, failed)
  }

  ghost predicate ReportedLink(s: map<string, Conditions>, t: map<string, Conditions>, links: Links, r: string,
                               failed: set<string>)
    requires r in links
  {
    var ready := Condition(t, links[r].linkName, Ready);
    if r !in failed then ready == Some(True)
    else if MissesRequired(links, links[r]) then ready == Condition(s, links[r].linkName, Ready)
    else ready == Some(False)
  }

  lemma ReportedStep(s: map<string, Conditions>, t: map<string, Conditions>, u: map<string, Conditions>, links: Links,
                     done: seq<string>, r: string, failed: set<string>, ok: bool)
    requires r in links && r !in done && r !in failed && ManagedNamesAlone(links)
    requires Reported(s, t, links, done, failed) && (forall x :: x in failed && x in links ==> IsManaged(links[x]))
    requires SameReady(t, u, {links[r].linkName}) && ReportedLink(t, u, links, r, if ok then {} else {r})
    requires (!IsManaged(links[r]) ==> ok)
    ensures Reported(s, u, links, done + [r], if ok then failed else failed + {r})
  {
    var failed' := if ok then failed else failed + {r};
    forall x | x in done + [r] && x in links ensures ReportedLink(s, u, links, x, failed') {
      if x == r {
        if !ok { NameIsNew(links, done, r); }
      } else {
        assert ReportedLink(s, t, links, x, failed);
        if links[x].linkName == links[r].linkName {
          assert !IsManaged(links[x]) && !IsManaged(links[r]);
        }
      }
    }
    assert SameReady(s, u, set x | x in done + [r] && x in links :: links[x].linkName) by {
      assert links[r].linkName in (set x | x in done + [r] && x in links :: links[x].linkName);
    }
  }

  lemma NameIsNew(links: Links, done: seq<string>, r: string)
    requires r in links && r !in done && IsManaged(links[r]) && ManagedNamesAlone(links)
    ensures links[r].linkName !in (set x | x in done && x in links :: links[x].linkName)
  {
  }

  lemma MissingFailedStep(links: Links, done: seq<string>, r: string, failed: set<string>, ok: bool)
    requires MissingFailed(links, done, failed) && r in links
    requires (MissesRequired(links, links[r]) ==> !ok) && (!IsManaged(links[r]) ==> ok)
    ensures MissingFailed(links, done + [r], if ok then failed else failed + {r})
  {
  }

  /** The interfaces of the links that did not fail were read; of unmanaged ones, if `all` reads succeeded. */
  ghost predicate WereSeen(seen: set<string>, links: Links, done: seq<string>, failed: set<string>, all: bool) {
    forall r :: r in done && r in links && r !in failed && (all || IsManaged(links[r])) ==> links[r].linkName in seen
  }

  /** The turn of the i-th link, as a step of the pass. */
  method TakeTurn(k: Netlink, status: Storage<NodeLinksStatus>, order: seq<string>, i: nat, links: Links, g: Dependents,
                  ghost start: Net, ghost turns: seq<Turn>, ghost good: set<string>, ghost failed: set<string>,
                  ghost faultless: bool)
    returns (ok: bool, ghost turns': seq<Turn>, ghost good': set<string>, ghost failed': set<string>)
    requires k.Valid() && Planned(links, g, order) && NoUnmanagedRides(start, links) && i < |order|
    requires AvailabilityKnown(status.value, links, order)
    requires |turns| == i && History(links, g, order, start, k.net, turns)
    requires Outcome(links, g, order[..i], start, k.net, good, failed, faultless)
    modifies k, status
    ensures k.Valid() && k.faults >= old(k.faults)
    ensures AvailabilityKnown(status.value, links, order)
    ensures status.value.lastAttempted == old(status.value).lastAttempted
    ensures |turns'| == i + 1 && History(links, g, order, start, k.net, turns')
    ensures Outcome(links, g, order[..i + 1], start, k.net, good', failed', faultless && k.faults == old(k.faults))
    ensures order[i] in links && (!IsManaged(links[order[i]]) ==> ok)
    ensures (MissesRequired(links, links[order[i]]) ==> !ok)
    ensures SameReady(old(status.value).linkConditions, status.value.linkConditions, {links[order[i]].linkName})
    ensures ReportedLink(old(status.value).linkConditions, status.value.linkConditions, links, order[i],
                         if ok then {} else {order[i]})
    ensures SameValidity(old(status.value).linkConditions, status.value.linkConditions, {})
    ensures AllDesired(start, links) ==> k.writes == old(k.writes)
    ensures k.seen >= old(k.seen)
    ensures ok && (IsManaged(links[order[i]]) || k.faults == old(k.faults)) ==> links[order[i]].linkName in k.seen
    ensures failed' == if ok then failed else failed + {order[i]}
    ensures k.owned <= old(k.owned) + ManagedNames(links)
    ensures old(k.targets) <= k.targets <= old(k.targets) + ManagedNames(links)
  {
    var r := order[i];
    PlannedGraph(links, g, order);
    OrderedLink(links, g, order, i);
    ghost var net := k.net;
    ghost var turn;
    ok, turn := UpsertLink(k, status, r, links, g);
    HistoryStep(links, g, order, start, net, turns, turn);
    OutcomeStep(links, g, order, i, start, net, good, failed, faultless, turn, ok,
                faultless && k.faults == old(k.faults));
    good', turns', failed' := NextGood(links, good, r, ok), turns + [turn], if ok then failed else failed + {r};
  }

  /** All turns, going on after a failure. */
  method TakeTurns(k: Netlink, status: Storage<NodeLinksStatus>, order: seq<string>, links: Links, g: Dependents)
    returns (ok: bool, ghost failed: set<string>, ghost turns: seq<Turn>, ghost good: set<string>)
    requires k.Valid() && Planned(links, g, order) && NoUnmanagedRides(k.net, links)
    requires AvailabilityKnown(status.value, links, order)
    modifies k, status
    ensures k.Valid() && k.faults >= old(k.faults)
    ensures ok <==> failed == {}
    ensures |turns| == |order| && History(links, g, order, old(k.net), k.net, turns)
    ensures Outcome(links, g, order[..|order|], old(k.net), k.net, good, failed, k.faults == old(k.faults))
    ensures MissingFailed(links, order[..|order|], failed)
    ensures Reported(old(status.value).linkConditions, status.value.linkConditions, links, order[..|order|], failed)
    ensures SameValidity(old(status.value).linkConditions, status.value.linkConditions, {})
    ensures AvailabilityKnown(status.value, links, order)
    ensures AllDesired(old(k.net), links) ==> k.writes == old(k.writes)
    ensures WereSeen(k.seen, links, order[..|order|], failed, k.faults == old(k.faults))
    ensures k.owned <= old(k.owned) + ManagedNames(links)
    ensures old(k.targets) <= k.targets <= old(k.targets) + ManagedNames(links)
    ensures status.value.lastAttempted == old(status.value).lastAttempted
  {
    ghost var start := k.net;
    ok, failed, turns, good := true, {}, [], {};
    PassBegins(links, g, order, start);
    for i := 0 to |order|
      invariant k.Valid() && k.faults >= old(k.faults)
      invariant AvailabilityKnown(status.value, links, order)
      invariant status.value.lastAttempted == old(status.value).lastAttempted
      invariant |turns| == i && History(links, g, order, start, k.net, turns)
      invariant Outcome(links, g, order[..i], start, k.net, good, failed, k.faults == old(k.faults))
      invariant MissingFailed(links, order[..i], failed)
      invariant Reported(old(status.value).linkConditions, status.value.linkConditions, links, order[..i], failed)
      invariant ok <==> failed == {}
      invariant SameValidity(old(status.value).linkConditions, status.value.linkConditions, {})
      invariant AllDesired(start, links) ==> k.writes == old(k.writes)
      invariant WereSeen(k.seen, links, order[..i], failed, k.faults == old(k.faults))
      invariant k.owned <= old(k.owned) + ManagedNames(links)
      invariant old(k.targets) <= k.targets <= old(k.targets) + ManagedNames(links)
    {
      OrderedLink(links, g, order, i);
      ghost var before, earlier := status.value.linkConditions, failed;
      var upserted;
      upserted, turns, good, failed := TakeTurn(k, status, order, i, links, g, start, turns, good, failed,
                                                k.faults == old(k.faults));
      ReportedStep(old(status.value).linkConditions, before, status.value.linkConditions, links, order[..i], order[i],
                   earlier, upserted);
      MissingFailedStep(links, order[..i], order[i], earlier, upserted);
      ok := ok && upserted;
    }
  }

  /**
   * Upserts every link after its dependencies, going on after a failure. `failed` are the links whose turn failed
   * and `turns` is what happened on each.
   */
  method UpsertLinks(k: Netlink, status: Storage<NodeLinksStatus>, order: seq<string>, links: Links, g: Dependents)
    returns (ok: bool, ghost failed: set<string>, ghost turns: seq<Turn>)
    requires k.Valid() && Planned(links, g, order) && NoUnmanagedRides(k.net, links)
    requires AvailabilityKnown(status.value, links, order)
    modifies k, status
    ensures k.Valid() && NoUnmanagedRides(k.net, links) && k.faults >= old(k.faults)
    ensures failed <= links.Keys && (ok <==> failed == {})
    // Failure isolation and, if nothing failed, convergence.
    ensures forall r :: r in links && !Tainted(g, failed, r) ==> Desired(k.net.ifaces, links, links[r])
    ensures ok ==> AllDesired(k.net, links)
    // Only netlink failures, missing dependencies and absent unmanaged interfaces make a link fail.
    ensures k.faults == old(k.faults) ==> forall r :: r in failed ==> Explained(links, g, old(k.net), r)
    ensures k.faults == old(k.faults) ==> AllSettled(links, k.net)
    ensures MissingFailed(links, order, failed)
    ensures Reported(old(status.value).linkConditions, status.value.linkConditions, links, order, failed)
    ensures |turns| == |order| && Run(links, g, order, old(k.net), k.net, turns)
    ensures SetDownSafe(links, g, order, turns)
    ensures MissingStayDown(links, old(k.net), turns)
    ensures Confined(links, old(k.net), k.net)
    ensures SameValidity(old(status.value).linkConditions, status.value.linkConditions, {})
    ensures AvailabilityKnown(status.value, links, order)
    // Nothing is written if there was nothing to do.
    ensures AllDesired(old(k.net), links) ==> k.writes == old(k.writes)
    // Every interface whose link did not fail was read, except perhaps unmanaged ones.
    ensures WereSeen(k.seen, links, order, failed, k.faults == old(k.faults))
    ensures k.owned <= old(k.owned) + ManagedNames(links)
    ensures old(k.targets) <= k.targets <= old(k.targets) + ManagedNames(links)
    ensures status.value.lastAttempted == old(status.value).lastAttempted
    ensures !ok ==> status.value.ready == Some(False)
  {
    ghost var start, good := k.net, {};
    ok, failed, turns, good := TakeTurns(k, status, order, links, g);
    if !ok {
      SetReady(status, False);
    }
    assert order[..|order|] == order;
    PassEnds(links, g, order, start, k.net, good, failed, k.faults == old(k.faults));
  }
}
