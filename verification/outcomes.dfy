/** What a reconcile of a node finds and leaves behind: kernel, conditions and the links that failed. */
module Outcomes {
  import opened Wrappers
  import opened Kernel
  import opened Links
  import opened Graphs
  import opened LinkGraph
  import opened Status
  import opened Deletion
  import opened MissingDependencies
  import opened Soundness
  import opened Validation
  import opened UpsertPass
  import opened Agent

  /** A further reconcile of these links would find nothing to do. */
  ghost predicate Quiet(net: Net, links: Links, lastAttempted: seq<string>) {
    && AllDesired(net, links)
    && NoneMissing(links)
    && Elements(lastAttempted) <= AllNames(links)
  }

  /** There is nothing that a reconcile of these links could or should do. */
  ghost predicate Idle(net: Net, links: Links, lastAttempted: seq<string>) {
    !Acceptable(links) || Quiet(net, links, lastAttempted)
  }

  lemma AllOrdered(links: Links, g: Dependents, order: seq<string>)
    requires Planned(links, g, order)
    ensures forall r :: r in links <==> r in order
  {
  }

  // ---------- What the upsert of the links achieved ----------

  /** A link that depends on no failed one, directly or not, is in its desired state. */
  ghost predicate Isolated(links: Links, net: Net, failed: set<string>) {
    && failed <= links.Keys
    && forall r :: r in links && !Tainted(DesiredGraph(links), failed, r) ==> Desired(net.ifaces, links, links[r])
  }

  /** The conditions show which links failed, and the verdicts on their dependencies. */
  ghost predicate Shown(conditions: map<string, Conditions>, links: Links, failed: set<string>) {
    && (forall r :: r in links ==> (r in failed <==> Condition(conditions, links[r].linkName, Ready) != Some(True)))
    && VerdictsKnown(conditions, links)
  }

  /** `r` depends on a link that could not succeed. */
  ghost predicate Excused(links: Links, before: Net, after: Net, r: string) {
    exists x :: x in links && Reaches(DesiredGraph(links), x, r) && Blamed(links, before, after, x)
  }

  /** Every failure has a reason that no call is to blame for. */
  ghost predicate Justified(links: Links, before: Net, after: Net, failed: set<string>) {
    forall r :: r in failed ==> Excused(links, before, after, r)
  }

  /** All links without such a reason are in their desired state. */
  ghost predicate RestDesired(links: Links, before: Net, after: Net) {
    forall r :: r in links && !Excused(links, before, after, r) ==> Desired(after.ifaces, links, links[r])
  }

  /** The links were upserted, and `failed` did not succeed. */
  ghost predicate Attempted(links: Links, net: Net, conditions: map<string, Conditions>, failed: set<string>) {
    Isolated(links, net, failed) && Shown(conditions, links, failed)
  }

  /** Links that miss nothing are rid of VNIDs they do not ask for; all others are where they were. */
  ghost predicate VnidsSettled(links: Links, before: Net, after: Net) {
    AllSettled(links, after) && VnidsFrom(links, before, after)
  }

  /** If no netlink call failed from `before` to `after`, only links with a reason failed. */
  ghost predicate Explicable(links: Links, before: Net, after: Net, failed: set<string>) {
    Justified(links, before, after, failed) && RestDesired(links, before, after) && VnidsSettled(links, before, after)
  }

  /** The links ask for distinct VNIDs, and no interface that no managed link claims has one of them. */
  ghost predicate VnidsFree(links: Links, net: Net) {
    forall x :: x in links && links[x].spec.VxlanSpec? ==> !VnidContested(links, x) && !VnidHeldOutside(links, net, x)
  }

  /** Links may have swapped their VNIDs: after one upsert of all without failing calls none is taken any more. */
  lemma NoVnidTaken(links: Links, before: Net, after: Net)
    requires VnidsSettled(links, before, after) && NoneMissing(links) && VnidsFree(links, before)
    ensures forall x :: x in links ==> !VnidTaken(links, after, x)
  {
    forall x | x in links && links[x].spec.VxlanSpec? ensures !VnidTaken(links, after, x) {
      VnidTakenExactly(links, after, x);
    }
  }

  /** No link misses a dependency or a VNID, and the interfaces of the unmanaged links exist. */
  ghost predicate Attainable(links: Links, before: Net, after: Net) {
    forall x :: x in links ==> !Blamed(links, before, after, x)
  }

  lemma AttainableMeansNoFailure(links: Links, before: Net, after: Net, failed: set<string>)
    requires Justified(links, before, after, failed)
    ensures Attainable(links, before, after) ==> failed == {}
  {
    if failed != {} {
      var r :| r in failed;
      assert Excused(links, before, after, r);
    }
  }

  lemma JustifiedMeansRestDesired(links: Links, before: Net, after: Net, failed: set<string>)
    requires IsGraph(DesiredGraph(links))
    requires Isolated(links, after, failed) && Justified(links, before, after, failed)
    ensures RestDesired(links, before, after)
  {
    var g := DesiredGraph(links);
    forall r | r in links && !Excused(links, before, after, r) ensures !Tainted(g, failed, r) {
      if Tainted(g, failed, r) {
        var f :| f in failed && Reaches(g, f, r);
        assert Excused(links, before, after, f);
        var x :| x in links && Reaches(g, x, f) && Blamed(links, before, after, x);
        ReachesTransitive(g, x, f, r);
      }
    }
  }

  /** In terms of what the pass proves: it began at `start`, and left the unmanaged interfaces alone. */
  lemma JustifiedByCulprits(links: Links, start: Net, net: Net, failed: set<string>)
    requires NoUnmanagedRides(start, links) && Confined(links, start, net) && IsGraph(DesiredGraph(links))
    requires forall r :: r in failed ==> Explained(links, DesiredGraph(links), start, r)
    requires Isolated(links, net, failed) && AllSettled(links, net)
    ensures Explicable(links, start, net, failed)
  {
    var g := DesiredGraph(links);
    ExternalIsClosed(start, links);
    forall r | r in failed ensures Excused(links, start, net, r) {
      assert Explained(links, g, start, r);
      var x :| x in links && Reaches(g, x, r) && Culprit(links, start, x);
      if !IsManaged(links[x]) { assert links[x].linkName in UnmanagedNames(links); }
      assert Blamed(links, start, net, x);
    }
    JustifiedMeansRestDesired(links, start, net, failed);
  }

  /** Every VXLAN of `b` was one of `a`, with the same VNID. */
  ghost predicate FewerVnids(a: Net, b: Net) {
    forall m :: m in b.ifaces && b.ifaces[m].kind.Vxlan? ==>
      m in a.ifaces && a.ifaces[m].kind.Vxlan? && a.ifaces[m].vnid == b.ifaces[m].vnid
  }

  lemma DeletionFewerVnids(net: Net, down: set<string>, deleted: set<string>)
    ensures FewerVnids(net, Delete(DownAll(net, down), deleted))
  {
  }

  lemma FewerVnidsTransitive(a: Net, b: Net, c: Net)
    requires FewerVnids(a, b) && FewerVnids(b, c)
    ensures FewerVnids(a, c)
  {
  }

  /** Set-downs and deletions before the upserts take no VNID. */
  lemma ExplicableEarlier(links: Links, start: Net, cleared: Net, after: Net, failed: set<string>)
    requires FewerVnids(start, cleared) && Explicable(links, cleared, after, failed)
    ensures Explicable(links, start, after, failed)
  {
    forall r | Excused(links, cleared, after, r) ensures Excused(links, start, after, r) {
      var x :| x in links && Reaches(DesiredGraph(links), x, r) && Blamed(links, cleared, after, x);
      assert Blamed(links, start, after, x);
    }
    forall m | m in after.ifaces && after.ifaces[m].kind.Vxlan?
      ensures VnidKnown(links, start, m, after.ifaces[m].vnid)
    {
      assert VnidKnown(links, cleared, m, after.ifaces[m].vnid);
    }
  }

  /** The interfaces of the managed links were read; those of all links, if `all` reads succeeded. */
  ghost predicate AllSeen(seen: set<string>, links: Links, all: bool) {
    ManagedNames(links) <= seen && (all ==> AllNames(links) <= seen)
  }

  // ---------- Conditions ----------

  /** Every link's DependencyLinksAvailable condition is the verdict on its dependencies. */
  ghost predicate VerdictsKnown(conditions: map<string, Conditions>, links: Links) {
    forall r :: r in links ==>
      Condition(conditions, links[r].linkName, DependencyLinksAvailable) == Some(Verdict(links, links[r]))
  }

  /** Links that miss a required dependency are reported as not ready. */
  ghost predicate MissingNotReady(conditions: map<string, Conditions>, links: Links) {
    forall r :: r in links && MissesRequired(links, links[r]) ==>
      Condition(conditions, links[r].linkName, Ready) == Some(False)
  }

  lemma CheckedAll(s: NodeLinksStatus, t: NodeLinksStatus, links: Links, order: seq<string>)
    requires Checked(s, t, links, order, true) && (forall r :: r in links <==> r in order)
    ensures VerdictsKnown(t.linkConditions, links) && MissingNotReady(t.linkConditions, links)
  {
    forall r | r in links && MissesRequired(links, links[r])
      ensures Condition(t.linkConditions, links[r].linkName, Ready) == Some(False)
    {
      assert links[r].linkName in MissingNames(links, order);
    }
  }

  lemma ReportedMeansShown(s: NodeLinksStatus, t: NodeLinksStatus, links: Links, order: seq<string>,
                           failed: set<string>)
    requires MissingNotReady(s.linkConditions, links) && (forall r :: r in links <==> r in order)
    requires Reported(s.linkConditions, t.linkConditions, links, order, failed) && AvailabilityKnown(t, links, order)
    ensures Shown(t.linkConditions, links, failed)
  {
    forall r | r in links ensures r in failed <==> Condition(t.linkConditions, links[r].linkName, Ready) != Some(True) {
      assert ReportedLink(s.linkConditions, t.linkConditions, links, r, failed);
    }
  }

  lemma StillJudged(s: map<string, Conditions>, t: map<string, Conditions>, links: Links, names: set<string>)
    requires Judged(s, links, links.Keys) && SameValidity(s, t, names) && names !! AllNames(links)
    ensures Judged(t, links, links.Keys)
  {
    forall n | NameContested(links, links.Keys, n) ensures Condition(t, n, ValidConfiguration) == Some(False) {
      assert n in AllNames(links);
    }
  }

  /** All conditions that verdicts are read from, but those of `names`, are as they were. */
  ghost predicate SameVerdicts(s: NodeLinksStatus, t: NodeLinksStatus, names: set<string>) {
    && SameAvailability(s, t, names)
    && SameReady(s.linkConditions, t.linkConditions, names)
  }

  lemma StillKnown(s: NodeLinksStatus, t: NodeLinksStatus, links: Links, names: set<string>)
    requires VerdictsKnown(s.linkConditions, links) && MissingNotReady(s.linkConditions, links)
    requires SameVerdicts(s, t, names) && names !! AllNames(links)
    ensures VerdictsKnown(t.linkConditions, links) && MissingNotReady(t.linkConditions, links)
  {
    forall r | r in links
      ensures Condition(t.linkConditions, links[r].linkName, DependencyLinksAvailable) == Some(Verdict(links, links[r]))
    {
      assert links[r].linkName in AllNames(links);
      assert Availability(t, links[r].linkName) == Availability(s, links[r].linkName);
    }
    forall r | r in links && MissesRequired(links, links[r])
      ensures Condition(t.linkConditions, links[r].linkName, Ready) == Some(False)
    {
      assert links[r].linkName in AllNames(links);
    }
  }

  lemma MissingDownAtEnd(links: Links, g: Dependents, order: seq<string>, start: Net, net: Net, turns: seq<Turn>)
    requires Planned(links, g, order) && |turns| == |order| && Run(links, g, order, start, net, turns)
    requires MissingStayDown(links, start, turns)
    ensures MissingDown(start, links) ==> MissingDown(net, links)
  {
    if turns != [] {
      assert MissingDownAt(links, start, turns, |turns| - 1);
    }
  }

  ghost predicate NoneMissing(links: Links) {
    forall r :: r in links ==> !MissesRequired(links, links[r])
  }

  lemma WithinClaims(net: Net, links: Links, listed: Links, s: NodeLinksStatus, claimed: set<string>)
    requires Fetched(links, listed) && NoUnmanagedRides(net, listed)
    requires ManagedNames(links) <= claimed && Elements(s.lastAttempted) <= claimed
    ensures ManagedNames(links) + Undesired(s, links) <= claimed - UnmanagedNames(links)
    ensures AllNames(links) == ManagedNames(links) + UnmanagedNames(links)
  {
    FetchedIsAlone(net, links, listed);
  }

  ghost predicate LinksReady(s: NodeLinksStatus, links: Links) {
    forall r :: r in links ==> Condition(s.linkConditions, links[r].linkName, Ready) == Some(True)
  }

  ghost predicate AllReady(s: NodeLinksStatus, links: Links) {
    s.ready == Some(True) && LinksReady(s, links)
  }

  /** The recorded names that no link asks for. */
  ghost function Undesired(s: NodeLinksStatus, links: Links): set<string> {
    Elements(s.lastAttempted) - AllNames(links)
  }

  /** Links that miss a required dependency are down or absent. */
  ghost predicate MissingDown(net: Net, links: Links) {
    forall r :: r in links && MissesRequired(links, links[r]) ==> DownOrAbsent(net, links[r].linkName)
  }

  lemma SetDownIsDown(net: Net, links: Links, order: seq<string>)
    requires forall r :: r in links <==> r in order
    ensures MissingDown(DownAll(net, MissingNames(links, order)), links)
  {
    forall r | r in links && MissesRequired(links, links[r])
      ensures DownOrAbsent(DownAll(net, MissingNames(links, order)), links[r].linkName)
    {
      assert r in order;
    }
  }

  lemma MissingAmongManaged(links: Links, order: seq<string>)
    requires AllSupported(links)
    ensures MissingNames(links, order) <= ManagedNames(links)
    ensures NoneMissing(links) ==> MissingNames(links, order) == {}
  {
  }

  lemma DeletesNothing(net: Net, down: set<string>, deleted: set<string>, names: seq<string>)
    requires down <= Elements(names) && deleted <= Elements(names)
    ensures Elements(names) == {} ==> names == [] && Delete(DownAll(net, down), deleted) == net
  {
    if names != [] {
      assert names[0] in Elements(names);
    } else {
      DeletionOfNothing(net);
    }
  }

  lemma DeletionKeepsDown(net: Net, down: set<string>, deleted: set<string>, links: Links)
    requires MissingDown(net, links)
    ensures MissingDown(Delete(DownAll(net, down), deleted), links)
  {
  }
}
