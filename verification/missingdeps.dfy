/** Setting down the links whose required dependencies are not on the node. */
module MissingDependencies {
  import opened Kernel
  import opened Wrappers
  import opened Netlink
  import opened Links
  import opened LinkGraph
  import opened Status
  import opened Deletion

  /** The interface name of a managed link belongs to no other link. */
  ghost predicate ManagedNamesAlone(links: Links) {
    forall a, b :: a in links && b in links && IsManaged(links[a]) && links[a].linkName == links[b].linkName ==> a == b
  }

  predicate MissesRequired(links: Links, l: Link) {
    exists ref :: ref in GetDependencies(l) && !ref.optional && ref.name !in links
  }

  /** The interface names of those of `rs` that miss a required dependency. */
  ghost function MissingNames(links: Links, rs: seq<string>): set<string> {
    set r | r in rs && r in links && MissesRequired(links, links[r]) :: links[r].linkName
  }

  function Verdict(links: Links, l: Link): ConditionStatus {
    if MissesRequired(links, l) then False else True
  }

  ghost predicate AvailabilityKnown(s: NodeLinksStatus, links: Links, rs: seq<string>) {
    forall r :: r in rs && r in links ==> Availability(s, links[r].linkName) == Some(Verdict(links, links[r]))
  }

  /** An unmanaged link has no dependencies, so links that share a name agree on the verdict. */
  lemma SameNameSameVerdict(links: Links, a: string, b: string)
    requires ManagedNamesAlone(links) && AllSupported(links)
    requires a in links && b in links && links[a].linkName == links[b].linkName
    ensures Verdict(links, links[a]) == Verdict(links, links[b])
  {
  }

  lemma OneMoreKnown(s: NodeLinksStatus, t: NodeLinksStatus, links: Links, rs: seq<string>, r: string)
    requires ManagedNamesAlone(links) && AllSupported(links) && r in links
    requires AvailabilityKnown(s, links, rs) && SameAvailability(s, t, {links[r].linkName})
    requires Availability(t, links[r].linkName) == Some(Verdict(links, links[r]))
    ensures AvailabilityKnown(t, links, rs + [r])
  {
    forall x | x in rs + [r] && x in links
      ensures Availability(t, links[x].linkName) == Some(Verdict(links, links[x]))
    {
      if links[x].linkName == links[r].linkName { SameNameSameVerdict(links, x, r); }
    }
  }

  lemma OneMoreName(links: Links, order: seq<string>, i: nat)
    requires i < |order| && order[i] in links
    ensures order[..i + 1] == order[..i] + [order[i]]
    ensures MissingNames(links, order[..i + 1]) == MissingNames(links, order[..i]) +
      if MissesRequired(links, links[order[i]]) then {links[order[i]].linkName} else {}
  {
    assert order[..i + 1] == order[..i] + [order[i]];
  }

  lemma StillNotReadyMissing(s: map<string, Conditions>, t: map<string, Conditions>, links: Links, rs: seq<string>,
                             r: string)
    requires ManagedNamesAlone(links) && AllSupported(links) && r in links
    requires NotReady(s, MissingNames(links, rs)) && SameReady(s, t, {links[r].linkName})
    requires MissesRequired(links, links[r]) ==> Condition(t, links[r].linkName, Ready) == Some(False)
    ensures NotReady(t, MissingNames(links, rs + [r]))
  {
    forall n | n in MissingNames(links, rs + [r]) ensures Condition(t, n, Ready) == Some(False) {
      var x :| x in rs + [r] && x in links && MissesRequired(links, links[x]) && links[x].linkName == n;
      if n == links[r].linkName { SameNameSameVerdict(links, x, r); }
    }
  }

  /** Going from `s` to `t`, at most the verdict on `l` was recorded; it was if `ok`. */
  ghost predicate VerdictRecorded(s: NodeLinksStatus, t: NodeLinksStatus, links: Links, l: Link, ok: bool) {
    && t.lastAttempted == s.lastAttempted
    && (forall n, c :: c != OperationallyUp && !(n == l.linkName && c in {Ready, DependencyLinksAvailable}) ==>
          Condition(t.linkConditions, n, c) == Condition(s.linkConditions, n, c))
    && (ok ==> Availability(t, l.linkName) == Some(Verdict(links, l)))
    && (ok && MissesRequired(links, l) ==> Condition(t.linkConditions, l.linkName, Ready) == Some(False))
  }

  lemma RecordsVerdict(s: NodeLinksStatus, t: NodeLinksStatus, links: Links, l: Link, ready: ConditionStatus)
    requires OnlyOperational(s, t) && (MissesRequired(links, l) ==> ready == False)
    ensures var u := WithLinkCondition(t, l.linkName, Ready, ready);
      VerdictRecorded(s, WithLinkCondition(u, l.linkName, DependencyLinksAvailable, Verdict(links, l)), links, l, true)
  {
    var u := WithLinkCondition(t, l.linkName, Ready, ready);
    var v := WithLinkCondition(u, l.linkName, DependencyLinksAvailable, Verdict(links, l));
    forall n, c | c != OperationallyUp && !(n == l.linkName && c in {Ready, DependencyLinksAvailable})
      ensures Condition(v.linkConditions, n, c) == Condition(s.linkConditions, n, c)
    {
      assert Condition(v.linkConditions, n, c) == Condition(t.linkConditions, n, c);
    }
  }

  /** The links `rs` were checked; if `ok`, all verdicts are recorded and links that miss a dependency are not ready. */
  ghost predicate Checked(s: NodeLinksStatus, t: NodeLinksStatus, links: Links, rs: seq<string>, ok: bool) {
    && t.lastAttempted == s.lastAttempted
    && SameValidity(s.linkConditions, t.linkConditions, {})
    && (ok ==> AvailabilityKnown(t, links, rs) && NotReady(t.linkConditions, MissingNames(links, rs)))
  }

  lemma CheckedStep(s: NodeLinksStatus, t: NodeLinksStatus, u: NodeLinksStatus, links: Links, rs: seq<string>,
                    r: string, ok: bool, checked: bool)
    requires ManagedNamesAlone(links) && AllSupported(links) && r in links
    requires Checked(s, t, links, rs, ok) && VerdictRecorded(t, u, links, links[r], checked)
    ensures Checked(s, u, links, rs + [r], ok && checked)
  {
    if ok && checked {
      OneMoreKnown(t, u, links, rs, r);
      StillNotReadyMissing(t.linkConditions, u.linkConditions, links, rs, r);
    }
  }

  /** Sets one link down if it misses a required dependency, and records the verdict. */
  method CheckDependencies(k: Netlink, status: Storage<NodeLinksStatus>, l: Link, links: Links, ghost start: Net,
                           ghost done: set<string>)
    returns (ok: bool)
    requires k.Valid() && k.net == DownAll(start, done)
    modifies k`net, k`targets, k`faults, k`writes, status
    ensures k.Valid() && k.faults >= old(k.faults) && (ok <==> k.faults == old(k.faults))
    ensures old(k.targets) <= k.targets <= old(k.targets) + if MissesRequired(links, l) then {l.linkName} else {}
    ensures k.net == if ok && MissesRequired(links, l) then DownAll(start, done + {l.linkName}) else old(k.net)
    ensures !MissesRequired(links, l) ==> k.writes == old(k.writes)
    ensures VerdictRecorded(old(status.value), status.value, links, l, ok)
  {
    ghost var before := status.value;
    ok := true;
    if MissesRequired(links, l) {
      assert IsManaged(l); // an unmanaged link has no dependencies
      ok := BringDownLink(k, status, l.linkName, start, done);
      if ok {
        RecordsVerdict(before, status.value, links, l, False);
        SetLinkCondition(status, l.linkName, Ready, False);
        SetLinkCondition(status, l.linkName, DependencyLinksAvailable, False);
      }
    } else {
      RecordsVerdict(before, before, links, l, Unknown);
      SetLinkCondition(status, l.linkName, Ready, Unknown);
      SetLinkCondition(status, l.linkName, DependencyLinksAvailable, True);
    }
  }

  method UpdateDependentsMissingDependencies(k: Netlink, status: Storage<NodeLinksStatus>, order: seq<string>,
                                             links: Links)
    returns (ok: bool, ghost down: set<string>, ghost missed: set<string>)
    requires k.Valid() && AllSupported(links) && ManagedNamesAlone(links)
    requires forall r :: r in order ==> r in links
    modifies k`net, k`targets, k`faults, k`writes, status
    ensures k.Valid() && old(k.targets) <= k.targets <= old(k.targets) + MissingNames(links, order)
    ensures k.faults >= old(k.faults) && (ok <==> k.faults == old(k.faults))
    ensures k.net == DownAll(old(k.net), down)
    // A failure costs one link at most; the others are set down all the same.
    ensures down <= MissingNames(links, order) && (ok ==> down == MissingNames(links, order))
    ensures MissingNames(links, order) <= down + missed && |missed| <= k.faults - old(k.faults)
    ensures MissingNames(links, order) == {} ==> k.writes == old(k.writes)
    ensures Checked(old(status.value), status.value, links, order, ok)
    ensures !ok ==> status.value.ready == Some(False)
  {
    ghost var start := k.net;
    var allDependenciesExist := true;
    ok, down, missed := true, {}, {};
    DownAllNothing(start);
    for i := 0 to |order|
      invariant k.Valid() && old(k.targets) <= k.targets <= old(k.targets) + MissingNames(links, order[..i])
      invariant k.faults >= old(k.faults) && (ok <==> k.faults == old(k.faults))
      invariant k.net == DownAll(start, down)
      invariant down <= MissingNames(links, order[..i]) && (ok ==> down == MissingNames(links, order[..i]))
      invariant MissingNames(links, order[..i]) <= down + missed && |missed| <= k.faults - old(k.faults)
      invariant MissingNames(links, order[..i]) == {} ==> k.writes == old(k.writes)
      invariant Checked(old(status.value), status.value, links, order[..i], ok)
    {
      var l := links[order[i]];
      ghost var before := status.value;
      OneMoreName(links, order, i);
      var checked := CheckDependencies(k, status, l, links, start, down);
      CheckedStep(old(status.value), before, status.value, links, order[..i], order[i], ok, checked);
      ok := ok && checked;
      if MissesRequired(links, l) {
        allDependenciesExist := false;
        if checked { down := down + {l.linkName}; } else { missed := missed + {l.linkName}; }
      }
    }
    assert order[..|order|] == order;
    if !ok || !allDependenciesExist {
      SetReady(status, False);
    }
  }
}
