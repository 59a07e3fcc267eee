/** The cluster controller: it fans one Link out to the NodeLinks of the nodes its selector matches. */
module LinkController {
  import opened Wrappers
  import opened Status
  import opened Patch
  import opened Cluster
  import Agent
  import Deletion

  type Memory = Resource<string, LinkStatus>

  /** The nodes whose NodeLinks are being deleted: what they list no longer matters. */
  ghost function Pending(store: Store): set<string> {
    set n | n in store && !Live(store, n)
  }

  /** Every live NodeLinks that lists the link is among `nodes`. */
  ghost predicate CoveredBy(store: Store, link: string, nodes: seq<string>) {
    forall n :: Lists(store, n, link) ==> n in nodes
  }

  /** The write-ahead record: a Link listed anywhere carries the finalizer, and its stored status has the node. */
  ghost predicate Covered(store: Store, link: string, slot: Option<Object<string, LinkStatus>>) {
    forall n :: Lists(store, n, link) ==> Guarded(slot, LINK_FINALIZER) && n in slot.value.status.matchedNodes
  }

  /**
   * A reconcile of `link` took it off some of the nodes `from` and put it on some of the nodes `to`. No other
   * membership was added; and if only agents interfered none was lost, and no NodeLinks went away but with `link` as
   * its last entry.
   */
  ghost predicate Moved(link: string, from: set<string>, to: set<string>, calm: bool, a: Store, b: Store) {
    && (forall n, m :: Lists(b, n, m) ==> Lists(a, n, m) || (m == link && n in to))
    && (calm ==> OthersKept(link, a, b) && DeletedOnlyEmpty(link, a, b))
    && (calm ==> forall n :: n !in from ==> (Lists(a, n, link) ==> Lists(b, n, link)) && (Live(a, n) ==> Live(b, n)))
    && (calm ==> forall n :: n !in from ==> (n in Pending(a) <==> n in Pending(b)))
  }

  lemma MovedTransitive(link: string, from: set<string>, to: set<string>, calm: bool, a: Store, b: Store, c: Store)
    requires Moved(link, from, to, calm, a, b) && Moved(link, from, to, calm, b, c)
    ensures Moved(link, from, to, calm, a, c)
  {
    if calm {
      forall n, m | Live(a, n) && !Live(c, n) && m in a[n].meta.spec ensures m == link {
        assert Lists(a, n, m);
        assert m != link ==> Lists(b, n, m);
      }
    }
  }

  /** A controller's own calls removed no membership but those of `link`. */
  ghost predicate OnlyDrops(link: string, a: set<(string, string)>, b: set<(string, string)>) {
    forall n, m :: (n, m) in b && (n, m) !in a ==> m == link
  }

  /** A write keeps the memberships of others in the store that it meets, whatever interfered before it. */
  lemma KeptDropsOnly(link: string, a: Store, b: Store)
    requires OthersKept(link, a, b)
    ensures OnlyDrops(link, {}, Memberships(a) - Memberships(b))
  {
    forall n, m | (n, m) in Memberships(a) - Memberships(b) ensures m == link {
      assert m != link ==> Lists(b, n, m);
    }
  }

  lemma TouchMovesNothing(link: string, from: set<string>, to: set<string>, calm: bool, a: Store, b: Store)
    requires Meanwhile(calm, a, b)
    ensures Moved(link, from, to, calm, a, b)
  {
  }

  lemma DeleteMoves(link: string, node: string, a: Store)
    requires node in a ==> forall m :: m in a[node].meta.spec ==> m == link
    ensures OthersKept(link, a, Deleted(a, node))
    ensures Moved(link, {node}, {}, true, a, Deleted(a, node))
    ensures !Live(Deleted(a, node), node)
  {
    var b := Deleted(a, node);
    forall n, m | Lists(a, n, m) && n != node ensures Lists(b, n, m) {}
    forall n, m | m != link && Lists(a, n, m) ensures Lists(b, n, m) {}
  }

  lemma PatchMoves(link: string, node: string, a: Store, meta: Meta<seq<string>>)
    requires node in a && meta.deleting == a[node].meta.deleting
    requires forall m :: m in meta.spec <==> m in a[node].meta.spec && m != link
    ensures OthersKept(link, a, Replaced(a, node, meta))
    ensures Moved(link, {node}, {}, true, a, Replaced(a, node, meta))
    ensures !Lists(Replaced(a, node, meta), node, link)
  {
    var b := Replaced(a, node, meta);
    forall n, m | Lists(a, n, m) && n != node ensures Lists(b, n, m) {}
  }

  class LinkReconciler {
    const api: ApiServer
    const name: string

    constructor (api: ApiServer, name: string)
      ensures this.api == api && this.name == name
    {
      this.api, this.name := api, name;
    }

    ghost predicate IsGuarded() reads api, api.link {
      Guarded(api.link.slot, LINK_FINALIZER)
    }

    /** The stored Link is not being deleted, and has the finalizer unless nobody interferes with adding it. */
    ghost predicate Upsertable() reads api, api.link {
      api.link.slot.Some? && !api.link.slot.value.meta.deleting && (IsGuarded() || api.link.calm)
    }

    /** The stored status tells whether the reconcile succeeded. */
    ghost predicate Told(ok: bool) reads api, api.link {
      IsGuarded() && api.link.slot.value.status.ready == Some(if ok then True else False)
    }

    /** How many calls have failed for reasons of their own. */
    ghost function Faults(): nat reads api, api.link {
      api.faults + api.link.faults
    }

    ghost predicate Holds() reads this, api, api.link {
      && ValidStore(api.nodeLinks)
      && api.link.finalizer == LINK_FINALIZER && api.link.blank == NO_STATUS && api.link.merge == MergeLinkStatus
      && Covered(api.nodeLinks, name, api.link.slot)
    }

    ghost predicate Working(cached: Memory, o: Memory)
      reads this, api, api.link, cached, cached.status, o, o.status
    {
      && Holds()
      && cached != o && cached.status != o.status
      && InStep(LINK_FINALIZER, api.link.slot, cached.Value()) && MetaClose(LINK_FINALIZER, cached.meta, o.meta)
      && CoveredBy(api.nodeLinks, name, o.status.value.matchedNodes)
    }

    /** Whether the finalizers must be written because the node is gone: its agent cannot drop its own. */
    method FinalizersToKeep(node: string, snapshot: Meta<seq<string>>) returns (ok: bool, finalizers: seq<string>)
      requires ValidStore(api.nodeLinks)
      modifies api
      ensures Meanwhile(api.calm, old(api.nodeLinks), api.nodeLinks) && ValidStore(api.nodeLinks)
      ensures api.calm ==> api.matching == old(api.matching) && api.nodes == old(api.nodes)
      ensures api.dropped == old(api.dropped)
      ensures api.faults >= old(api.faults) && (ok <==> api.faults == old(api.faults))
      ensures ok && api.calm && snapshot.deleting && node !in api.nodes ==> Agent.FINALIZER !in finalizers
      ensures finalizers == snapshot.finalizers || finalizers == Filtered(snapshot.finalizers, Agent.FINALIZER)
      ensures finalizers != snapshot.finalizers ==> snapshot.deleting && node !in api.nodes
    {
      finalizers := snapshot.finalizers;
      if snapshot.deleting && Agent.FINALIZER in snapshot.finalizers {
        var r := api.GetNode(node);
        if r.Failed? { return false, finalizers; }
        if r.NotFound? { finalizers := Filtered(finalizers, Agent.FINALIZER); }
      }
      ok := true;
    }

    /** Deletes the NodeLinks of `node`, or writes it without the link; `before` is the store when it was read. */
    method WriteRemoval(node: string, snapshot: Meta<seq<string>>, finalizers: seq<string>, ghost before: Store)
      returns (r: ApiResult)
      requires ValidStore(api.nodeLinks) && Meanwhile(api.calm, before, api.nodeLinks)
      requires node in before && before[node].meta == snapshot && NoDuplicates(snapshot.spec)
      requires finalizers == snapshot.finalizers ||
        (snapshot.deleting && finalizers == Filtered(snapshot.finalizers, Agent.FINALIZER))
      modifies api
      ensures ValidStore(api.nodeLinks) && Moved(name, {node}, {}, api.calm, before, api.nodeLinks)
      ensures api.calm ==> api.matching == old(api.matching)
      ensures OnlyDrops(name, old(api.dropped), api.dropped)
      ensures api.faults >= old(api.faults) && (api.calm && api.faults == old(api.faults) ==> r.Ok?)
      ensures r.Ok? || r.NotFound? ==> !Lists(api.nodeLinks, node, name)
      ensures r.NotFound? ==> !api.calm
      ensures r.Ok? && api.calm && Agent.FINALIZER !in finalizers ==> Released(before, api.nodeLinks, node)
    {
      var changed := Meta(finalizers, snapshot.deleting, Filtered(snapshot.spec, name));
      ghost var seen;
      if changed.spec == [] && !snapshot.deleting {
        r, seen := api.DeleteNodeLinks(node);
        DeleteMoves(name, node, seen);
      } else {
        r, seen := api.PatchNodeLinks(node, snapshot, changed);
        if r.Ok? { PatchMoves(name, node, seen, MergeMeta(seen[node].meta, snapshot, changed)); }
      }
      if r.Ok? { KeptDropsOnly(name, seen, api.nodeLinks); }
      assert Moved(name, {node}, {}, api.calm, before, seen) by {
        MeanwhileTransitive(api.calm, before, old(api.nodeLinks), seen);
        TouchMovesNothing(name, {node}, {}, api.calm, before, seen);
      }
      MovedTransitive(name, {node}, {}, api.calm, before, seen, api.nodeLinks);
    }

    /** Takes the link off the NodeLinks just read. */
    method RemoveFromFound(node: string, snapshot: Meta<seq<string>>, o: Memory) returns (ok: bool)
      requires ValidStore(api.nodeLinks) && node in api.nodeLinks && api.nodeLinks[node].meta == snapshot
      modifies api, o.status
      ensures ValidStore(api.nodeLinks) && Moved(name, {node}, {}, api.calm, old(api.nodeLinks), api.nodeLinks)
      ensures api.calm ==> api.matching == old(api.matching)
      ensures OnlyDrops(name, old(api.dropped), api.dropped)
      ensures api.faults >= old(api.faults) && (api.calm && api.faults == old(api.faults) ==> ok)
      ensures ok ==> !Lists(api.nodeLinks, node, name)
      ensures ok && api.calm && node !in old(api.nodes) ==> Released(old(api.nodeLinks), api.nodeLinks, node)
      ensures ok && api.calm && name in snapshot.spec ==> node !in o.status.value.matchedNodes
      ensures o.status.value == old(o.status.value) ||
        (ok && o.status.value == old(o.status.value).(matchedNodes := Filtered(old(o.status.value).matchedNodes, node)))
    {
      ghost var before := api.nodeLinks;
      var finalizers;
      ok, finalizers := FinalizersToKeep(node, snapshot);
      TouchMovesNothing(name, {node}, {}, api.calm, before, api.nodeLinks);
      if !ok { return; }
      if name !in snapshot.spec && |finalizers| == |snapshot.finalizers| { return true; }
      var r := WriteRemoval(node, snapshot, finalizers, before);
      if !r.Ok? { return r.NotFound?; }
      o.status.value := o.status.value.(matchedNodes := Filtered(o.status.value.matchedNodes, node));
      ok := true;
    }

    /** Takes the link off one node; true unless an error must be reported. */
    method RemoveFromNodeLinks(node: string, o: Memory) returns (ok: bool)
      requires ValidStore(api.nodeLinks)
      modifies api, o.status
      ensures ValidStore(api.nodeLinks) && Moved(name, {node}, {}, api.calm, old(api.nodeLinks), api.nodeLinks)
      ensures api.calm ==> api.matching == old(api.matching)
      ensures OnlyDrops(name, old(api.dropped), api.dropped)
      ensures api.faults >= old(api.faults) && (api.calm && api.faults == old(api.faults) ==> ok)
      ensures ok ==> !Lists(api.nodeLinks, node, name)
      ensures ok && api.calm && node !in old(api.nodes) ==> Released(old(api.nodeLinks), api.nodeLinks, node)
      ensures ok && api.calm && node in old(api.nodeLinks) && name in old(api.nodeLinks)[node].meta.spec ==>
        node !in o.status.value.matchedNodes
      ensures o.status.value == old(o.status.value) ||
        (ok && o.status.value == old(o.status.value).(matchedNodes := Filtered(old(o.status.value).matchedNodes, node)))
    {
      ghost var before := api.nodeLinks;
      var r, found := api.GetNodeLinks(node);
      TouchMovesNothing(name, {node}, {}, api.calm, before, api.nodeLinks);
      if r.NotFound? { return true; }
      if r.Failed? { return false; }
      label L:
      ok := RemoveFromFound(node, found.value.meta, o);
      MovedTransitive(name, {node}, {}, api.calm, before, old@L(api.nodeLinks), api.nodeLinks);
    }

    /** Of the `nodes` only the `missed` still list the link, and undisturbed only they stay recorded for it. */
    ghost predicate Removed(nodes: set<string>, missed: set<string>, calm: bool, a: Store, b: Store,
                            recorded: seq<string>)
    {
      && (forall n :: n in nodes && Lists(b, n, name) ==> n in missed)
      && (calm ==> forall n :: n in nodes && n !in missed && Lists(a, n, name) ==> n !in recorded)
    }

    /** One more node: the link was taken off it, or it is missed. */
    lemma RemovedMore(nodes: set<string>, missed: set<string>, calm: bool, a: Store, b: Store, recorded: seq<string>,
                      node: string, c: Store, recorded': seq<string>, removed: bool)
      requires Removed(nodes, missed, calm, a, b, recorded) && CoveredBy(b, name, recorded)
      requires Moved(name, nodes, {}, calm, a, b) && Moved(name, {node}, {}, calm, b, c)
      requires removed ==> !Lists(c, node, name)
      requires removed && calm && Lists(b, node, name) ==> node !in recorded'
      requires recorded' == recorded || (removed && recorded' == Filtered(recorded, node))
      ensures CoveredBy(c, name, recorded')
      ensures Removed(nodes + {node}, if removed then missed else missed + {node}, calm, a, c, recorded')
      ensures Moved(name, nodes + {node}, {}, calm, a, c)
    {
      MovedMore(name, nodes, {}, nodes + {node}, {}, calm, a, b);
      MovedMore(name, {node}, {}, nodes + {node}, {}, calm, b, c);
      MovedTransitive(name, nodes + {node}, {}, calm, a, b, c);
    }

    /** Takes the link off the recorded nodes that are not among `desired`, going on after a failure. */
    method RemoveFromUnmatchedNodeLinks(o: Memory, desired: seq<string>)
      returns (ok: bool, ghost missed: set<string>)
      requires ValidStore(api.nodeLinks) && CoveredBy(api.nodeLinks, name, o.status.value.matchedNodes)
      modifies api, o.status
      ensures ValidStore(api.nodeLinks) && CoveredBy(api.nodeLinks, name, o.status.value.matchedNodes)
      ensures Moved(name, Undesired(old(o.status.value).matchedNodes, desired), {}, api.calm,
                    old(api.nodeLinks), api.nodeLinks)
      ensures api.calm ==> api.matching == old(api.matching)
      ensures OnlyDrops(name, old(api.dropped), api.dropped)
      // Every failure costs one node at most; the others are served all the same.
      ensures Removed(Undesired(old(o.status.value).matchedNodes, desired), missed, api.calm,
                      old(api.nodeLinks), api.nodeLinks, o.status.value.matchedNodes)
      ensures (ok <==> missed == {}) && api.faults >= old(api.faults)
      ensures api.calm ==> |missed| <= api.faults - old(api.faults)
    {
      ghost var before, nodes := api.nodeLinks, {};
      ok, missed := true, {};
      var undesired := Agent.Without(o.status.value.matchedNodes, Deletion.Elements(desired));
      for i := 0 to |undesired|
        invariant nodes == Deletion.Elements(undesired[..i])
        invariant ValidStore(api.nodeLinks) && CoveredBy(api.nodeLinks, name, o.status.value.matchedNodes)
        invariant Moved(name, nodes, {}, api.calm, before, api.nodeLinks)
        invariant api.calm ==> api.matching == old(api.matching)
        invariant OnlyDrops(name, old(api.dropped), api.dropped)
        invariant Removed(nodes, missed, api.calm, before, api.nodeLinks, o.status.value.matchedNodes)
        invariant (ok <==> missed == {}) && api.faults >= old(api.faults)
        invariant api.calm ==> |missed| <= api.faults - old(api.faults)
      {
        Deletion.ElementsPrefix(undesired, i);
        ghost var store, recorded := api.nodeLinks, o.status.value.matchedNodes;
        var removed := RemoveFromNodeLinks(undesired[i], o);
        RemovedMore(nodes, missed, api.calm, before, store, recorded, undesired[i], api.nodeLinks,
                    o.status.value.matchedNodes, removed);
        nodes := nodes + {undesired[i]};
        if !removed { ok, missed := false, missed + {undesired[i]}; }
      }
      assert undesired[..|undesired|] == undesired;
    }

    /** Creates the NodeLinks of `node`, or adds the link to the one found, in a store that was `before`. */
    method WriteRegistration(node: string, found: Option<Meta<seq<string>>>, ghost before: Store) returns (ok: bool)
      requires ValidStore(api.nodeLinks) && Meanwhile(api.calm, before, api.nodeLinks)
      requires if found.None? then node !in api.nodeLinks else
        && node in api.nodeLinks && api.nodeLinks[node].meta == found.value
        && !found.value.deleting && name !in found.value.spec
      modifies api
      ensures ValidStore(api.nodeLinks) && Moved(name, {}, {node}, api.calm, before, api.nodeLinks)
      ensures api.calm ==> api.matching == old(api.matching)
      ensures OnlyDrops(name, old(api.dropped), api.dropped)
      ensures api.faults >= old(api.faults) && (api.calm && api.faults == old(api.faults) ==> ok)
      ensures ok && api.calm ==> Lists(api.nodeLinks, node, name)
    {
      ghost var seen;
      if found.None? {
        ok, seen := api.CreateNodeLinks(node, [name]);
      } else {
        var r;
        r, seen := api.PatchNodeLinks(node, found.value, found.value.(spec := found.value.spec + [name]));
        ok := r.Ok?;
      }
      RegistrationMoves(name, node, api.calm, seen, api.nodeLinks);
      KeptDropsOnly(name, seen, api.nodeLinks);
      assert Moved(name, {}, {node}, api.calm, before, seen) by {
        MeanwhileTransitive(api.calm, before, old(api.nodeLinks), seen);
        TouchMovesNothing(name, {}, {node}, api.calm, before, seen);
      }
      MovedTransitive(name, {}, {node}, api.calm, before, seen, api.nodeLinks);
    }

    /** Puts the link on the NodeLinks of one node, creating it if need be; one that is being deleted is left alone. */
    method RegisterWithNodeLinks(node: string) returns (ok: bool)
      requires Holds() && IsGuarded() && node in api.link.slot.value.status.matchedNodes
      modifies api, api.link
      ensures Holds() && IsGuarded()
      ensures api.link.slot.value.status == old(api.link.slot).value.status
      ensures api.calm && node in Pending(old(api.nodeLinks)) ==> Peaceful(old(api.nodeLinks), api.nodeLinks)
      ensures Moved(name, {}, {node}, api.calm, old(api.nodeLinks), api.nodeLinks)
      ensures api.calm ==> api.matching == old(api.matching)
      ensures OnlyDrops(name, old(api.dropped), api.dropped)
      ensures api.link.faults == old(api.link.faults)
      ensures Faults() >= old(Faults()) && (api.calm && Faults() == old(Faults()) ==> ok)
      ensures ok && api.calm && node !in Pending(old(api.nodeLinks)) ==> Lists(api.nodeLinks, node, name)
    {
      ghost var before := api.nodeLinks;
      api.link.Interfere();
      var r, found := api.GetNodeLinks(node);
      TouchMovesNothing(name, {}, {node}, api.calm, before, api.nodeLinks);
      if r.Failed? { return false; }
      if r.Ok? && (found.value.meta.deleting || name in found.value.meta.spec) { return true; }
      ok := WriteRegistration(node, if r.NotFound? then None else Some(found.value.meta), before);
    }

    method PatchLink(cached: Memory, o: Memory) returns (ok: bool)
      requires Working(cached, o)
      requires LINK_FINALIZER in o.meta.finalizers || forall n :: !Lists(api.nodeLinks, n, name)
      modifies api.link, cached, o, cached.status, o.status
      ensures Working(cached, o)
      ensures fresh(o.status) && (fresh(cached.status) || cached.status == old(cached.status))
      ensures old(LINK_FINALIZER in o.meta.finalizers) ==> LINK_FINALIZER in o.meta.finalizers
      ensures old(LINK_FINALIZER in o.meta.finalizers) && ok ==>
        IsGuarded() && api.link.slot.value.status == o.status.value == old(o.status.value)
      ensures api.link.faults >= old(api.link.faults)
      ensures ok && api.link.calm && old(api.link.slot == Some(cached.Value())) ==>
        api.link.slot == Left(old(cached.Value()), old(o.Value()))
      ensures api.link.calm && old(api.link.slot == Some(cached.Value()) && Permitted(cached.meta, o.meta)) ==>
        ok || api.link.faults > old(api.link.faults)
      ensures old(LINK_FINALIZER in o.meta.finalizers && IsGuarded()) && api.link.faults == old(api.link.faults) ==> ok
      ensures old(LINK_FINALIZER in o.meta.finalizers && IsGuarded()) ==> IsGuarded()
      ensures old(LINK_FINALIZER !in o.meta.finalizers) && ok ==> !IsGuarded()
    {
      ghost var copy, asked, before := cached.Value(), o.Value(), api.link.slot;
      ghost var t;
      LinkMergesExactly(api.link);
      ok, t := PatchResource(api.link, cached, o);
      PatchStaysInStep(api.link, before, copy, asked, t, ok, api.link.slot, cached.Value(), o.Value());
      if api.link.calm && before == Some(copy) {
        PatchAgrees(api.link, before, copy, asked, t, ok, api.link.slot, cached.Value(), o.Value());
      }
    }

    method HandleError(cached: Memory, o: Memory, cleanup: bool)
      requires Working(cached, o) && LINK_FINALIZER in o.meta.finalizers
      modifies api.link, cached, o, cached.status, o.status
      ensures Working(cached, o) && api.link.faults >= old(api.link.faults)
      ensures old(IsGuarded()) && api.link.faults == old(api.link.faults) ==>
        IsGuarded() && (if cleanup then api.link.slot.value.status.cleanup == Some(False) else Told(false))
    {
      o.status.value :=
        if cleanup then o.status.value.(cleanup := Some(False)) else o.status.value.(ready := Some(False));
      var _ := PatchLink(cached, o);
    }

    /** The stored Link has the finalizer, or nothing but a failed call keeps the controller from adding it. */
    ghost predicate CanSecure(cached: Memory, o: Memory)
      reads this, api, api.link, cached, cached.status, o
    {
      || LINK_FINALIZER in o.meta.finalizers
      || (api.link.calm && api.link.slot == Some(cached.Value()) && !cached.meta.deleting)
    }

    method AddFinalizer(cached: Memory, o: Memory) returns (ok: bool)
      requires Working(cached, o) && cached.meta == o.meta
      modifies api.link, cached, o, cached.status, o.status
      ensures Working(cached, o) && LINK_FINALIZER in o.meta.finalizers
      ensures fresh(o.status) || o.status == old(o.status)
      ensures fresh(cached.status) || cached.status == old(cached.status)
      ensures ok ==> IsGuarded()
      ensures api.link.faults >= old(api.link.faults)
      ensures old(CanSecure(cached, o)) ==> ok || api.link.faults > old(api.link.faults)
      ensures old(LINK_FINALIZER in o.meta.finalizers) ==> ok && api.link.slot == old(api.link.slot)
      ensures old(LINK_FINALIZER !in o.meta.finalizers && CanSecure(cached, o)) && ok ==>
        && api.link.slot.Some?
        && api.link.slot.value.meta == old(o.meta).(finalizers := old(o.meta.finalizers) + [LINK_FINALIZER])
    {
      if LINK_FINALIZER in o.meta.finalizers { return true; }
      o.meta := o.meta.(finalizers := o.meta.finalizers + [LINK_FINALIZER]);
      ok := PatchLink(cached, o);
    }

    /** Puts the link on every node recorded in its stored status, going on after a failure. */
    method RegisterWithAll(matched: seq<string>) returns (ok: bool, ghost missed: set<string>)
      requires Holds() && IsGuarded() && api.link.slot.value.status.matchedNodes == matched
      modifies api, api.link
      ensures Holds() && IsGuarded()
      ensures api.link.slot.value.status == old(api.link.slot).value.status
      ensures api.link.faults == old(api.link.faults)
      // Every failure costs one node at most; the others are served all the same.
      ensures api.calm ==>
        forall n :: n in matched && n !in missed && n !in Pending(old(api.nodeLinks)) ==> Lists(api.nodeLinks, n, name)
      ensures (ok <==> missed == {}) && Faults() >= old(Faults())
      ensures api.calm ==> |missed| <= Faults() - old(Faults())
      ensures Moved(name, {}, Deletion.Elements(matched), api.calm, old(api.nodeLinks), api.nodeLinks)
      ensures api.calm ==> api.matching == old(api.matching)
      ensures OnlyDrops(name, old(api.dropped), api.dropped)
    {
      ghost var before, to := api.nodeLinks, Deletion.Elements(matched);
      ok, missed := true, {};
      TouchMovesNothing(name, {}, to, api.calm, before, before);
      for i := 0 to |matched|
        invariant Holds() && IsGuarded()
        invariant api.link.slot.value.status == old(api.link.slot).value.status
        invariant api.link.faults == old(api.link.faults)
        invariant (ok <==> missed == {}) && Faults() >= old(Faults())
        invariant api.calm ==> |missed| <= Faults() - old(Faults())
        invariant Moved(name, {}, to, api.calm, before, api.nodeLinks)
        invariant api.calm ==> api.matching == old(api.matching)
        invariant OnlyDrops(name, old(api.dropped), api.dropped)
        invariant api.calm ==> forall j :: 0 <= j < i && matched[j] !in missed && matched[j] !in Pending(before) ==>
          Lists(api.nodeLinks, matched[j], name)
      {
        ghost var store := api.nodeLinks;
        var registered := RegisterWithNodeLinks(matched[i]);
        MovedMore(name, {}, {matched[i]}, {}, to, api.calm, store, api.nodeLinks);
        MovedTransitive(name, {}, to, api.calm, before, store, api.nodeLinks);
        if !registered { ok, missed := false, missed + {matched[i]}; }
      }
    }

    /** The status is stored before any NodeLinks is touched: it always has at least the nodes that list the link. */
    method RegisterWithMatchedNodeLinks(cached: Memory, o: Memory, matched: seq<string>) returns (ok: bool)
      requires Working(cached, o) && LINK_FINALIZER in o.meta.finalizers && CoveredBy(api.nodeLinks, name, matched)
      modifies api, api.link, cached, o, cached.status, o.status
      ensures old(IsGuarded()) ==> IsGuarded()
      ensures api.link.faults >= old(api.link.faults)
      ensures Working(cached, o)
      ensures fresh(o.status) && (fresh(cached.status) || cached.status == old(cached.status))
      ensures LINK_FINALIZER in o.meta.finalizers
      ensures ok ==> IsGuarded() && o.status.value.matchedNodes == matched
      ensures Faults() >= old(Faults())
      ensures api.calm && Faults() == old(Faults()) && old(IsGuarded()) ==> ok
      ensures Moved(name, {}, Deletion.Elements(matched), api.calm, old(api.nodeLinks), api.nodeLinks)
      ensures api.calm ==> api.matching == old(api.matching)
      ensures OnlyDrops(name, old(api.dropped), api.dropped)
      ensures ok && api.calm ==>
        forall n :: n in matched && n !in Pending(old(api.nodeLinks)) ==> Lists(api.nodeLinks, n, name)
    {
      o.status.value := o.status.value.(matchedNodes := matched);
      ok := PatchLink(cached, o);
      TouchMovesNothing(name, {}, Deletion.Elements(matched), api.calm, api.nodeLinks, api.nodeLinks);
      if ok {
        ghost var missed;
        ok, missed := RegisterWithAll(matched);
      }
    }

    /** Takes the link off the recorded nodes that are not among `desired`, then puts it on those. */
    method Reassign(cached: Memory, o: Memory, desired: seq<string>) returns (ok: bool)
      requires Working(cached, o) && LINK_FINALIZER in o.meta.finalizers
      modifies api, api.link, cached, o, cached.status, o.status
      ensures old(IsGuarded()) ==> IsGuarded()
      ensures api.link.faults >= old(api.link.faults)
      ensures Working(cached, o) && LINK_FINALIZER in o.meta.finalizers
      ensures fresh(o.status) || o.status == old(o.status)
      ensures fresh(cached.status) || cached.status == old(cached.status)
      ensures Moved(name, Undesired(old(o.status.value).matchedNodes, desired), Deletion.Elements(desired), api.calm,
                    old(api.nodeLinks), api.nodeLinks)
      ensures api.calm ==> api.matching == old(api.matching)
      ensures OnlyDrops(name, old(api.dropped), api.dropped)
      ensures Faults() >= old(Faults()) && (ok ==> IsGuarded() && o.status.value.matchedNodes == desired)
      ensures api.calm && Faults() == old(Faults()) && old(IsGuarded()) ==> ok
      ensures ok && api.calm ==>
        forall n :: Lists(api.nodeLinks, n, name) <==> n in desired && n !in Pending(old(api.nodeLinks))
    {
      ghost var before, from := api.nodeLinks, Undesired(o.status.value.matchedNodes, desired);
      ghost var to := Deletion.Elements(desired);
      ghost var missed;
      ok, missed := RemoveFromUnmatchedNodeLinks(o, desired);
      ghost var removed := api.nodeLinks;
      MovedMore(name, from, {}, from, to, api.calm, before, removed);
      if !ok { return; }
      ok := RegisterWithMatchedNodeLinks(cached, o, desired);
      MovedMore(name, {}, to, from, to, api.calm, removed, api.nodeLinks);
      MovedTransitive(name, from, to, api.calm, before, removed, api.nodeLinks);
    }

    /** Makes exactly the NodeLinks of the matching nodes list the link, but for those being deleted. */
    method UpdateNodeLinks(cached: Memory, o: Memory)
      returns (ok: bool, ghost matched: seq<string>, ghost from: set<string>)
      requires Working(cached, o) && LINK_FINALIZER in o.meta.finalizers
      modifies api, api.link, cached, o, cached.status, o.status
      ensures old(IsGuarded()) ==> IsGuarded()
      ensures api.link.faults >= old(api.link.faults)
      ensures Working(cached, o) && LINK_FINALIZER in o.meta.finalizers
      ensures fresh(o.status) || o.status == old(o.status)
      ensures fresh(cached.status) || cached.status == old(cached.status)
      ensures Moved(name, from, Deletion.Elements(matched), api.calm, old(api.nodeLinks), api.nodeLinks)
      ensures Faults() >= old(Faults()) && (ok ==> IsGuarded() && o.status.value.matchedNodes == matched)
      ensures api.calm && Faults() == old(Faults()) && old(IsGuarded()) ==> ok
      ensures OnlyDrops(name, old(api.dropped), api.dropped)
      ensures ok && api.calm ==> forall n :: n in matched <==> n in api.matching
      ensures ok && api.calm ==>
        forall n :: Lists(api.nodeLinks, n, name) <==> n in matched && n !in Pending(old(api.nodeLinks))
    {
      ghost var before := api.nodeLinks;
      matched, from := [], {};
      var nodes := api.ListMatchingNodes();
      ghost var store := api.nodeLinks;
      TouchMovesNothing(name, {}, {}, api.calm, before, store);
      if nodes.None? { return false, matched, from; }
      o.status.value := o.status.value.(ready := Some(Unknown));
      from, matched := Undesired(o.status.value.matchedNodes, nodes.value), nodes.value;
      ok := Reassign(cached, o, nodes.value);
      MovedMore(name, {}, {}, from, Deletion.Elements(matched), api.calm, before, store);
      MovedTransitive(name, from, Deletion.Elements(matched), api.calm, before, store, api.nodeLinks);
    }

    /** Stores the outcome; `ok` says that the reconcile succeeded as a whole. */
    method Report(cached: Memory, o: Memory, updated: bool) returns (ok: bool)
      requires Working(cached, o) && LINK_FINALIZER in o.meta.finalizers && (updated ==> IsGuarded())
      modifies api.link, cached, o, cached.status, o.status
      ensures Holds() && api.link.faults >= old(api.link.faults)
      ensures ok ==> updated && IsGuarded() && api.link.slot.value.status == old(o.status.value).(ready := Some(True))
      ensures updated && api.link.faults == old(api.link.faults) ==> ok
      ensures old(IsGuarded()) && api.link.faults == old(api.link.faults) ==> Told(ok)
    {
      if !updated {
        HandleError(cached, o, false);
        return false;
      }
      o.status.value := o.status.value.(ready := Some(True));
      ok := PatchLink(cached, o);
    }

    method HandleUpsert(cached: Memory, o: Memory) returns (ok: bool)
      requires Working(cached, o) && cached.meta == o.meta
      modifies api, api.link, cached, o, cached.status, o.status
      ensures Holds()
      ensures SparesOthers(name, api.calm, old(api.nodeLinks), api.nodeLinks)
      ensures OnlyDrops(name, old(api.dropped), api.dropped)
      ensures Faults() >= old(Faults()) && api.link.faults >= old(api.link.faults)
      ensures old(CanSecure(cached, o)) && api.link.faults == old(api.link.faults) ==> Told(ok)
      ensures api.calm && Faults() == old(Faults()) && old(CanSecure(cached, o)) ==> ok
      ensures ok && api.calm ==> RecordedExactly(api.link.slot, api.matching)
      ensures ok && api.calm ==> ListedExactly(api.nodeLinks, name, api.matching - Pending(old(api.nodeLinks)))
    {
      ok := AddFinalizer(cached, o);
      if !ok {
        HandleError(cached, o, false);
        return;
      }
      ghost var matched, from;
      ghost var before := api.nodeLinks;
      ok, matched, from := UpdateNodeLinks(cached, o);
      MovedSparesOthers(name, from, Deletion.Elements(matched), api.calm, before, api.nodeLinks);
      ok := Report(cached, o, ok);
    }

    /** Takes the link off every node, then drops the finalizer. */
    method HandleDeletion(cached: Memory, o: Memory) returns (ok: bool)
      requires Working(cached, o) && cached.meta == o.meta && api.link.slot == Some(cached.Value())
      modifies api, api.link, cached, o, cached.status, o.status
      ensures Holds()
      ensures SparesOthers(name, api.calm, old(api.nodeLinks), api.nodeLinks)
      ensures OnlyDrops(name, old(api.dropped), api.dropped)
      ensures Faults() >= old(Faults())
      // Without failures the link is listed nowhere any more, even if the finalizer cannot be dropped then.
      ensures old(LINK_FINALIZER in o.meta.finalizers) && api.calm && Faults() == old(Faults()) ==>
        forall n :: !Lists(api.nodeLinks, n, name)
      // Undisturbed, only a failed call makes it fail; of the Link nothing but the outcome and other finalizers are
      // left.
      ensures old(LINK_FINALIZER in o.meta.finalizers) && api.calm && api.link.calm && Faults() == old(Faults()) ==> ok
      ensures old(LINK_FINALIZER in o.meta.finalizers) && ok && api.link.calm ==> CleanedUp(old(o.meta), api.link.slot)
      ensures old(LINK_FINALIZER in o.meta.finalizers) && api.link.calm && api.link.faults == old(api.link.faults) ==>
        ok || (IsGuarded() && api.link.slot.value.status.cleanup == Some(False))
      ensures ok ==> !IsGuarded() && forall n :: !Lists(api.nodeLinks, n, name)
    {
      if LINK_FINALIZER !in o.meta.finalizers { return true; }
      ghost var missed;
      ok, missed := RemoveFromUnmatchedNodeLinks(o, []);
      if !ok {
        HandleError(cached, o, true);
        return;
      }
      o.status.value := o.status.value.(ready := Some(False), cleanup := Some(True));
      o.meta := o.meta.(finalizers := Filtered(o.meta.finalizers, LINK_FINALIZER));
      ok := PatchLink(cached, o);
    }

    method Reconcile() returns (ok: bool)
      requires Holds()
      modifies api, api.link
      ensures Holds()
      ensures SparesOthers(name, api.calm, old(api.nodeLinks), api.nodeLinks)
      ensures OnlyDrops(name, old(api.dropped), api.dropped)
      ensures Faults() >= old(Faults())
      ensures old(Upsertable()) && api.link.faults == old(api.link.faults) ==> Told(ok)
      ensures old(Upsertable()) && api.calm && Faults() == old(Faults()) ==> ok
      ensures ok && old(api.link.slot.Some? && api.link.slot.value.meta.deleting) ==>
        !IsGuarded() && forall n :: !Lists(api.nodeLinks, n, name)
      ensures ok && api.calm && old(api.link.slot.Some? && !api.link.slot.value.meta.deleting) ==>
        && RecordedExactly(api.link.slot, api.matching)
        && ListedExactly(api.nodeLinks, name, api.matching - Pending(old(api.nodeLinks)))
    {
      if api.link.slot.None? { return true; }
      var o := new Resource(api.link.slot.value);
      var cached := new Resource(api.link.slot.value);
      if o.meta.deleting {
        ok := HandleDeletion(cached, o);
      } else {
        ok := HandleUpsert(cached, o);
      }
    }

    /** Any run: others touch everything in between, other Links are reconciled, and calls fail at will. */
    method Run(steps: nat)
      requires Holds()
      modifies api, api.link
      ensures Holds()
      ensures !IsGuarded() ==> forall n :: !Lists(api.nodeLinks, n, name)
      ensures OnlyDrops(name, old(api.dropped), api.dropped)
    {
      for i := 0 to steps
        invariant Holds() && OnlyDrops(name, old(api.dropped), api.dropped)
      {
        api.link.Interfere();
        api.nodes, api.matching := *, *;
        var other: Store := *;
        if Between(name, api.nodeLinks, other) { api.nodeLinks := other; }
        var _ := Reconcile();
      }
    }
  }

  /** The Link went with its last finalizer, or it waits for those of others. */
  ghost predicate CleanedUp(before: Meta<string>, slot: Option<Object<string, LinkStatus>>) {
    if before.deleting && Filtered(before.finalizers, LINK_FINALIZER) == [] then slot.None?
    else
      && slot.Some? && slot.value.meta == before.(finalizers := Filtered(before.finalizers, LINK_FINALIZER))
      && slot.value.status.ready == Some(False) && slot.value.status.cleanup == Some(True)
  }

  /** A NodeLinks that is being deleted has lost the agent's finalizer, which the agent of a gone node cannot drop. */
  ghost predicate Released(a: Store, b: Store, node: string) {
    node in a && a[node].meta.deleting && node in b ==> Agent.FINALIZER !in b[node].meta.finalizers
  }

  /** The reconcile of `link` added no membership of another; if only agents interfered none was lost either. */
  ghost predicate SparesOthers(link: string, calm: bool, a: Store, b: Store) {
    && OthersNotAdded(link, a, b)
    && (calm ==> OthersKept(link, a, b) && DeletedOnlyEmpty(link, a, b))
  }

  lemma MovedSparesOthers(link: string, from: set<string>, to: set<string>, calm: bool, a: Store, b: Store)
    requires Moved(link, from, to, calm, a, b)
    ensures SparesOthers(link, calm, a, b)
  {
  }

  /** Exactly the NodeLinks of `nodes` list the link, each once. */
  ghost predicate ListedExactly(store: Store, link: string, nodes: set<string>) {
    && (forall n :: Lists(store, n, link) <==> n in nodes)
    && (forall n :: n in nodes ==> NoDuplicates(store[n].meta.spec))
  }

  /** The stored status of the link has exactly `nodes`. */
  ghost predicate RecordedExactly(slot: Option<Object<string, LinkStatus>>, nodes: set<string>) {
    Guarded(slot, LINK_FINALIZER) && Deletion.Elements(slot.value.status.matchedNodes) == nodes
  }

  lemma LinkMergesExactly(e: Endpoint<string, LinkStatus>)
    requires e.merge == MergeLinkStatus
    ensures MergesExactly(e.merge)
  {
  }

  lemma RegistrationMoves(link: string, node: string, calm: bool, a: Store, b: Store)
    requires
      || b == a
      || (node !in a && b == a[node := Object(Meta([], false, [link]), Agent.BLANK)])
      || (node in a && exists meta: Meta<seq<string>> ::
            && b == Replaced(a, node, meta) && meta.deleting == a[node].meta.deleting
            && meta.spec == a[node].meta.spec + [link])
    requires calm ==> node !in Pending(a)
    ensures OthersKept(link, a, b)
    ensures Moved(link, {}, {node}, calm, a, b)
  {
    forall n, m | Lists(a, n, m) && n != node ensures Lists(b, n, m) {}
  }

  ghost function Undesired(recorded: seq<string>, desired: seq<string>): set<string> {
    Deletion.Elements(recorded) - Deletion.Elements(desired)
  }

  lemma MovedMore(link: string, from: set<string>, to: set<string>, from': set<string>, to': set<string>, calm: bool,
                  a: Store, b: Store)
    requires Moved(link, from, to, calm, a, b) && from <= from' && to <= to'
    ensures Moved(link, from', to', calm, a, b)
  {
  }

  // ---------- The two controllers rely on each other ----------

  function SlotOf(store: Store, node: string): Option<Agent.NodeLinks> {
    if node in store then Some(store[node]) else None
  }

  /** A write of the cluster controller, other than the removal of the finalizer of a node that is gone. */
  ghost predicate ControllerWrites(a: Store, b: Store, node: string, from: Meta<seq<string>>, to: Meta<seq<string>>) {
    || b == Deleted(a, node)
    || (node in a && from.finalizers == to.finalizers && b == Replaced(a, node, MergeMeta(a[node].meta, from, to)))
    || (node !in a && b == a[node := Object(Meta([], false, to.spec), Agent.BLANK)])
  }

  /** Those writes are among the interference that the node agent's proofs allow for. */
  lemma ControllerRespectsAgent(a: Store, b: Store, node: string, from: Meta<seq<string>>, to: Meta<seq<string>>,
                                n: string)
    requires ControllerWrites(a, b, node, from, to)
    ensures OthersMay(Agent.FINALIZER, Agent.BLANK, SlotOf(a, n), SlotOf(b, n))
  {
    if n != node { assert SlotOf(a, n) == SlotOf(b, n); }
  }

  /**
   * The agent's writes, which leave the spec as it is, are among those that the cluster controller's proofs allow for,
   * and those on a NodeLinks that is not being deleted, or on its status, do not even disturb the calm.
   */
  lemma AgentRespectsController(a: Store, node: string, from: Meta<seq<string>>, to: Meta<seq<string>>,
                                status: Status.NodeLinksStatus)
    requires node in a && from.spec == to.spec
    ensures OthersTouch(a, Replaced(a, node, MergeMeta(a[node].meta, from, to)))
    ensures Live(a, node) ==> Peaceful(a, Replaced(a, node, MergeMeta(a[node].meta, from, to)))
    ensures OthersTouch(a, a[node := a[node].(status := status)])
    ensures Peaceful(a, a[node := a[node].(status := status)])
  {
  }
}
