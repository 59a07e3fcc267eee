/** From the Link resources of a node to an order in which to reconcile them. */
module Validation {
  import opened Wrappers
  import opened Links
  import opened Graphs
  import opened LinkGraph
  import opened Status

  /** No two managed links of `rs` share an interface name. */
  ghost predicate DistinctAmong(links: Links, rs: set<string>) {
    forall a, b ::
      && a in rs && b in rs && a in links && b in links
      && IsManaged(links[a]) && IsManaged(links[b]) && links[a].linkName == links[b].linkName
      ==> a == b
  }

  /** Every link of `rs` is of a known kind and does not refer to itself. */
  ghost predicate SoundAlone(links: Links, rs: set<string>) {
    forall r :: r in rs && r in links ==> ValidAlone(links, r)
  }

  ghost predicate ValidAlone(links: Links, r: string)
    requires r in links
  {
    Supported(links[r]) && !DependsOn(links[r], r)
  }

  ghost predicate NameUnique(links: Links, r: string)
    requires r in links
  {
    forall x :: x in links && links[x].linkName == links[r].linkName ==> x == r
  }

  /** Two managed links of `rs` share the name, and no other link has it. */
  ghost predicate NameContested(links: Links, rs: set<string>, name: string) {
    && (exists a, b ::
          a in rs && b in rs && a in links && b in links && a != b && links[a].linkName == links[b].linkName == name)
    && (forall x :: x in links && links[x].linkName == name ==> IsManaged(links[x]))
  }

  /**
   * What the conditions say about the links `rs`. They are kept by interface name, so links that share theirs with one
   * that is not managed are excepted.
   */
  ghost predicate Judged(s: map<string, Conditions>, links: Links, rs: set<string>) {
    && (forall r :: r in rs && r in links && NameUnique(links, r) ==>
          Condition(s, links[r].linkName, ValidConfiguration) == Some(if ValidAlone(links, r) then True else False))
    && (forall n :: NameContested(links, rs, n) ==> Condition(s, n, ValidConfiguration) == Some(False))
  }

  lemma JudgedStep(s: map<string, Conditions>, t: map<string, Conditions>, links: Links, rs: set<string>, r: string,
                   seen: map<string, string>)
    requires Judged(s, links, rs) && Seen(links, rs, seen) && r in links && r !in rs
    requires forall n :: n != links[r].linkName ==>
      Condition(t, n, ValidConfiguration) == Condition(s, n, ValidConfiguration)
    requires Condition(t, links[r].linkName, ValidConfiguration) ==
      Some(if ValidNext(links, r, seen) then True else False)
    ensures Judged(t, links, rs + {r})
  {
    forall n | NameContested(links, rs + {r}, n) ensures Condition(t, n, ValidConfiguration) == Some(False) {
      if n != links[r].linkName { assert NameContested(links, rs, n); }
    }
  }

  /** Which of `rs` first used each managed name. */
  ghost predicate Seen(links: Links, rs: set<string>, seen: map<string, string>) {
    && (forall n :: n in seen ==>
          seen[n] in rs && seen[n] in links && IsManaged(links[seen[n]]) && links[seen[n]].linkName == n)
    && (forall r :: r in rs && r in links && IsManaged(links[r]) ==> links[r].linkName in seen)
  }

  /** Whether `r` is found valid once the names `seen` are taken. */
  ghost predicate ValidNext(links: Links, r: string, seen: map<string, string>)
    requires r in links
  {
    ValidAlone(links, r) && !(IsManaged(links[r]) && links[r].linkName in seen)
  }

  lemma ValidStep(links: Links, rs: set<string>, r: string, seen: map<string, string>)
    requires Seen(links, rs, seen) && r in links && r !in rs
    ensures SoundAlone(links, rs + {r}) && DistinctAmong(links, rs + {r}) <==>
      (SoundAlone(links, rs) && DistinctAmong(links, rs) && ValidNext(links, r, seen))
  {
    if IsManaged(links[r]) && links[r].linkName in seen {
      assert seen[links[r].linkName] in rs + {r};
    }
  }

  lemma AllDistinct(links: Links)
    ensures DistinctAmong(links, links.Keys) <==> ManagedNamesDistinct(links)
  {
  }

  /** Checks one link; a self-reference is reported even if the name was fine. */
  method ValidateLink(status: Storage<NodeLinksStatus>, links: Links, r: string, seen: map<string, string>,
                      ghost done: set<string>)
    returns (valid: bool, seen': map<string, string>)
    requires r in links && r !in done && Judged(status.value.linkConditions, links, done) && Seen(links, done, seen)
    modifies status
    ensures status.value.lastAttempted == old(status.value).lastAttempted
    ensures valid <==> ValidNext(links, r, seen)
    ensures Judged(status.value.linkConditions, links, done + {r}) && Seen(links, done + {r}, seen')
  {
    ghost var before := status.value.linkConditions;
    var l := links[r];
    valid, seen' := Supported(l), seen;
    if IsManaged(l) {
      if l.linkName in seen {
        valid := false;
      } else {
        seen' := seen[l.linkName := r];
      }
    }
    valid := valid && !DependsOn(l, r);
    SetLinkCondition(status, l.linkName, ValidConfiguration, if valid then True else False);
    SetLinkCondition(status, l.linkName, Ready, if valid then Unknown else False);
    JudgedStep(before, status.value.linkConditions, links, done, r, seen);
  }

  /** Checks every link, in any order. */
  method ValidateLinks(status: Storage<NodeLinksStatus>, links: Links) returns (ok: bool)
    modifies status
    ensures status.value.lastAttempted == old(status.value).lastAttempted
    ensures ok <==> SoundAlone(links, links.Keys) && ManagedNamesDistinct(links)
    ensures Judged(status.value.linkConditions, links, links.Keys)
    ensures !ok ==> status.value.ready == Some(False)
  {
    var seen: map<string, string> := map[];
    var rest := links.Keys;
    ok := true;
    while rest != {}
      invariant rest <= links.Keys
      invariant status.value.lastAttempted == old(status.value).lastAttempted
      invariant Seen(links, links.Keys - rest, seen)
      invariant Judged(status.value.linkConditions, links, links.Keys - rest)
      invariant ok <==> SoundAlone(links, links.Keys - rest) && DistinctAmong(links, links.Keys - rest)
    {
      var r :| r in rest;
      ghost var done := links.Keys - rest;
      ValidStep(links, done, r, seen);
      var valid;
      valid, seen := ValidateLink(status, links, r, seen, done);
      ok := ok && valid;
      rest := rest - {r};
      assert done + {r} == links.Keys - rest;
    }
    assert links.Keys - rest == links.Keys;
    AllDistinct(links);
    if !ok {
      SetReady(status, False);
    }
  }

  /** Validation, the graph and its order succeed exactly for acceptable links, whatever the iteration order. */
  method PlanLinks(status: Storage<NodeLinksStatus>, links: Links) returns (ok: bool, g: Dependents, order: seq<string>)
    modifies status
    ensures status.value.lastAttempted == old(status.value).lastAttempted
    ensures ok <==> Acceptable(links)
    ensures ok ==> g == DesiredGraph(links) && TopologicalOrder(g, order)
    ensures Judged(status.value.linkConditions, links, links.Keys)
    ensures !ok ==> status.value.ready == Some(False)
  {
    AcceptableRefersElsewhere(links);
    g, order := map[], [];
    ok := ValidateLinks(status, links);
    if !ok { return; }
    var built, graph := BuildDesiredLinkGraph(links);
    if !built {
      SetReady(status, False);
      return false, g, order;
    }
    g := graph.adjacency;
    ok, order := graph.TopologicalSort(); // cannot fail: the graph is acyclic by construction
  }

  lemma AcceptableRefersElsewhere(links: Links)
    ensures Acceptable(links) ==> SoundAlone(links, links.Keys)
    ensures SoundAlone(links, links.Keys) ==> AllSupported(links)
  {
    if Acceptable(links) {
      forall r | r in links ensures !DependsOn(links[r], r) {
        ReachesItself(DesiredGraph(links), r);
        assert !Edge(DesiredGraph(links), r, r);
      }
    }
  }
}
