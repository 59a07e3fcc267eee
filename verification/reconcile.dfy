/** The reconcile of the node agent, and its runs. */
module Reconcile {
  import opened Wrappers
  import opened Kernel
  import opened Netlink
  import opened Links
  import opened LinkGraph
  import opened Status
  import opened Patch
  import opened Deletion
  import opened MissingDependencies
  import opened Soundness
  import opened Validation
  import opened UpsertPass
  import opened Agent
  import opened Outcomes

  type Memory = Resource<seq<string>, NodeLinksStatus>

  class NodeLinksReconciler {
    const kernel: Netlink
    const api: Endpoint<seq<string>, NodeLinksStatus>
    var watchedLinkNames: set<string>
    /** Names that unmanaged links ask for: interfaces handed over once the stored record drops their names. */
    ghost var pledged: set<string>

    /** The invariant over whole runs; `claimed` are the names that managed links have ever claimed. */
    ghost predicate Holds(claimed: set<string>) reads this, kernel, api {
      && kernel.Valid() && IsNodeLinksApi(api)
      && Tracked(kernel.owned, api.slot)
      && Recorded(api.slot, claimed)
      && kernel.targets <= claimed
    }

    /** The invariant within a reconcile, on `nl` and the copy `cached` of the stored object. */
    ghost predicate Working(cached: Memory, nl: Memory, claimed: set<string>)
      reads this, kernel, api, cached, cached.status, nl, nl.status
    {
      && Holds(claimed)
      && cached != nl && cached.status != nl.status
      && InStep(FINALIZER, api.slot, cached.Value()) && MetaClose(FINALIZER, cached.meta, nl.meta)
      && kernel.owned <= Elements(nl.status.value.lastAttempted) + pledged
      && Elements(nl.status.value.lastAttempted) <= claimed
      && (kernel.owned != {} ==> FINALIZER in nl.meta.finalizers)
    }

    /** ... once the stored object carries the finalizer. */
    ghost predicate Armed(cached: Memory, nl: Memory, claimed: set<string>)
      reads this, kernel, api, cached, cached.status, nl, nl.status
    {
      Working(cached, nl, claimed) && Guarded(api.slot, FINALIZER) && FINALIZER in nl.meta.finalizers
    }

    /** All links are in their desired state, the record of what was attempted is in place, and the status says so. */
    ghost predicate Converged(links: Links) reads kernel, api {
      && AllDesired(kernel.net, links) && NoneMissing(links)
      && Guarded(api.slot, FINALIZER) && Elements(api.slot.value.status.lastAttempted) == ManagedNames(links)
      && AllReady(api.slot.value.status, links)
    }

    /** The stored status tells whether the reconcile succeeded. */
    ghost predicate Told(ok: bool) reads api {
      Guarded(api.slot, FINALIZER) && api.slot.value.status.ready == Some(if ok then True else False)
    }

    /** The status in memory is stored. */
    ghost predicate Stored(nl: Memory) reads api, nl, nl.status {
      Guarded(api.slot, FINALIZER) && api.slot.value.status == nl.status.value
    }

    constructor (kernel: Netlink, api: Endpoint<seq<string>, NodeLinksStatus>)
      ensures this.kernel == kernel && this.api == api && watchedLinkNames == pledged == {}
    {
      this.kernel, this.api, watchedLinkNames, pledged := kernel, api, {}, {};
    }

    /** Patches the NodeLinks. What the stored record no longer names is handed over, as pledged. */
    method PatchNodeLinks(cached: Memory, nl: Memory, ghost claimed: set<string>) returns (ok: bool)
      requires Working(cached, nl, claimed)
      modifies kernel`owned, api, cached, nl, cached.status, nl.status
      ensures Working(cached, nl, claimed)
      ensures kernel.owned == old(kernel.owned) - (pledged - StoredRecord(api.slot))
      ensures fresh(nl.status) && (cached.status == old(cached.status) || fresh(cached.status))
      ensures old(FINALIZER in nl.meta.finalizers) && (ok || old(Guarded(api.slot, FINALIZER))) ==>
        Armed(cached, nl, claimed)
      ensures old(FINALIZER in nl.meta.finalizers) && ok ==> api.slot.value.status == nl.status.value
      ensures old(FINALIZER in nl.meta.finalizers) || !ok ==> nl.status.value == old(nl.status.value)
      ensures api.faults >= old(api.faults)
      ensures ok && api.calm && old(api.slot == Some(cached.Value())) ==>
        api.slot == Left(old(cached.Value()), old(nl.Value())) && nl.Value() == old(nl.Value())
      ensures api.calm && old(api.slot == Some(cached.Value()) && Permitted(cached.meta, nl.meta)) ==>
        ok || api.faults > old(api.faults)
      ensures old(Armed(cached, nl, claimed)) && api.faults == old(api.faults) ==> ok
    {
      ghost var copy, asked, before := cached.Value(), nl.Value(), api.slot;
      ghost var t;
      ok, t := PatchResource(api, cached, nl);
      kernel.owned := kernel.owned - (pledged - StoredRecord(api.slot));
      NodeLinksPatched(api, before, copy, asked, t, ok, api.slot, cached.Value(), nl.Value());
    }

    /** Ends the reconcile with an error, recorded in the status as far as possible. */
    method HandleError(cached: Memory, nl: Memory, notReady: bool, ghost claimed: set<string>)
      requires Working(cached, nl, claimed)
      modifies kernel`owned, api, cached, nl, cached.status, nl.status
      ensures Working(cached, nl, claimed) && api.faults >= old(api.faults)
      ensures kernel.owned == old(kernel.owned) - (pledged - StoredRecord(api.slot))
      ensures fresh(nl.status) && (fresh(cached.status) || cached.status == old(cached.status))
      ensures old(FINALIZER in nl.meta.finalizers) ==>
        nl.status.value.linkConditions == old(nl.status.value).linkConditions
      ensures old(Armed(cached, nl, claimed)) && api.faults == old(api.faults) ==> Stored(nl)
      ensures old(Armed(cached, nl, claimed)) && api.faults == old(api.faults) ==>
        notReady || old(nl.status.value.ready) == Some(False) ==> Told(false)
    {
      if notReady { SetReady(nl.status, False); }
      var _ := PatchNodeLinks(cached, nl, claimed);
    }

    /** The stored object has the finalizer, or nothing but a failed call keeps the agent from adding it. */
    ghost predicate CanSecure(cached: Memory, nl: Memory)
      reads this, api, cached, cached.status, nl
    {
      || FINALIZER in nl.meta.finalizers
      || (api.calm && api.slot == Some(cached.Value()) && !cached.meta.deleting)
    }

    method AddFinalizer(cached: Memory, nl: Memory, ghost claimed: set<string>) returns (ok: bool)
      requires Working(cached, nl, claimed) && cached.meta == nl.meta && pledged == {}
      modifies kernel`owned, api, cached, nl, cached.status, nl.status
      ensures Working(cached, nl, claimed) && kernel.owned == old(kernel.owned)
      ensures fresh(nl.status) || nl.status == old(nl.status)
      ensures fresh(cached.status) || cached.status == old(cached.status)
      ensures ok ==> Armed(cached, nl, claimed) && nl.status.value == old(nl.status.value)
      ensures api.faults >= old(api.faults)
      ensures old(CanSecure(cached, nl)) ==> ok || api.faults > old(api.faults)
      ensures ok && old(CanSecure(cached, nl)) ==> nl.meta.spec == old(nl.meta.spec)
      ensures old(FINALIZER in nl.meta.finalizers) ==> ok && nl.meta == old(nl.meta) && api.slot == old(api.slot)
      ensures old(FINALIZER !in nl.meta.finalizers && CanSecure(cached, nl)) && ok ==>
        api.slot.Some? && api.slot.value.meta == old(nl.meta).(finalizers := old(nl.meta.finalizers) + [FINALIZER])
    {
      if FINALIZER in nl.meta.finalizers { return true; }
      nl.meta := nl.meta.(finalizers := nl.meta.finalizers + [FINALIZER]);
      ok := PatchNodeLinks(cached, nl, claimed);
    }

    /** Fetches the Links of the given names; `listed` are those that the API serves under these names. */
    method GetLinkResources(names: seq<string>, listed: Links) returns (r: Option<Links>)
      modifies api`faults
      ensures r.Some? ==> Fetched(r.value, listed) && r.value.Keys == Elements(names)
      ensures api.faults >= old(api.faults)
      ensures r.Some? <==> api.faults == old(api.faults) && Elements(names) <= listed.Keys
    {
      var links: Links := map[];
      for i := 0 to |names|
        invariant Fetched(links, listed) && links.Keys == Elements(names[..i])
        invariant api.faults == old(api.faults)
      {
        ElementsPrefix(names, i);
        var fails := api.Fails();
        if fails || names[i] !in listed { return None; }
        links := links[names[i] := listed[names[i]]];
      }
      assert names[..|names|] == names;
      r := Some(links);
    }

    /** Secures the finalizer, then fetches the Links and watches the names of their interfaces. */
    method FetchLinks(cached: Memory, nl: Memory, listed: Links, ghost claimed: set<string>) returns (r: Option<Links>)
      requires Working(cached, nl, claimed) && cached.meta == nl.meta && pledged == {}
      modifies this`watchedLinkNames, kernel`owned, kernel`seen, api, cached, nl, cached.status, nl.status
      ensures watchedLinkNames == if r.Some? then AllNames(r.value) else old(watchedLinkNames)
      ensures Working(cached, nl, Claims(claimed, r)) && kernel.owned == old(kernel.owned)
      ensures fresh(nl.status) || nl.status == old(nl.status)
      ensures fresh(cached.status) || cached.status == old(cached.status)
      ensures r.Some? ==> Fetched(r.value, listed)
      ensures r.Some? ==> Armed(cached, nl, Claims(claimed, r)) && nl.status.value == old(nl.status.value)
      ensures api.faults >= old(api.faults)
      ensures old(CanSecure(cached, nl)) && api.faults == old(api.faults) && r.None? ==> Told(false) && Stored(nl)
      ensures old(CanSecure(cached, nl)) && api.faults == old(api.faults) && Elements(old(nl.meta.spec)) <= listed.Keys
        ==> r.Some?
      ensures old(CanSecure(cached, nl)) && r.Some? ==> r.value.Keys == Elements(old(nl.meta.spec))
    {
      var ok := AddFinalizer(cached, nl, claimed);
      if !ok {
        HandleError(cached, nl, true, claimed);
        return None;
      }
      r := GetLinkResources(nl.meta.spec, listed);
      if r.None? {
        HandleError(cached, nl, true, claimed);
        return;
      }
      watchedLinkNames, kernel.seen := AllNames(r.value), {};
    }

    method SetDownMissing(nl: Memory, links: Links, g: Dependents, order: seq<string>, listed: Links) returns (ok: bool)
      requires kernel.Valid() && Planned(links, g, order) && NoUnmanagedRides(kernel.net, listed)
      modifies kernel`net, kernel`targets, kernel`faults, kernel`writes, nl.status
      ensures kernel.Valid() && NoUnmanagedRides(kernel.net, listed) && FewerVnids(old(kernel.net), kernel.net)
      ensures Checked(old(nl.status.value), nl.status.value, links, order, ok)
      ensures old(kernel.targets) <= kernel.targets <= old(kernel.targets) + ManagedNames(links)
      ensures kernel.faults >= old(kernel.faults) && (ok <==> kernel.faults == old(kernel.faults))
      ensures !ok ==> nl.status.value.ready == Some(False)
      ensures ok ==> MissingDown(kernel.net, links)
      ensures NoneMissing(links) ==> kernel.net == old(kernel.net) && kernel.writes == old(kernel.writes)
    {
      ghost var start := kernel.net;
      ghost var down, missed;
      ok, down, missed := UpdateDependentsMissingDependencies(kernel, nl.status, order, links);
      MissingAmongManaged(links, order);
      NoRidesAfterDeletion(start, down, {}, listed);
      DeletionFewerVnids(start, down, {});
      DeleteAbsent(DownAll(start, down), {});
      DownAllNothing(start);
      AllOrdered(links, g, order);
      SetDownIsDown(start, links, order);
    }

    /** Deletes the recorded interfaces that no link, managed or not, asks for. */
    method DeleteUndesired(nl: Memory, links: Links, order: seq<string>, listed: Links) returns (ok: bool)
      requires kernel.Valid() && NoUnmanagedRides(kernel.net, listed) && MissingDown(kernel.net, links)
      modifies kernel`net, kernel`owned, kernel`targets, kernel`faults, kernel`writes, nl.status
      ensures kernel.Valid() && NoUnmanagedRides(kernel.net, listed) && FewerVnids(old(kernel.net), kernel.net)
      ensures nl.status.value.lastAttempted == old(nl.status.value).lastAttempted
      ensures kernel.owned <= old(kernel.owned)
      ensures old(kernel.targets) <= kernel.targets <= old(kernel.targets) + Undesired(old(nl.status.value), links)
      ensures SameVerdicts(old(nl.status.value), nl.status.value, Undesired(old(nl.status.value), links))
      ensures MissingDown(kernel.net, links)
      ensures kernel.faults >= old(kernel.faults) && (ok <==> kernel.faults == old(kernel.faults))
      ensures !ok ==> nl.status.value.ready == Some(False)
      ensures ok ==> Undesired(old(nl.status.value), links) !! kernel.owned + kernel.net.ifaces.Keys
      ensures Undesired(old(nl.status.value), links) == {} ==>
        kernel.net == old(kernel.net) && kernel.writes == old(kernel.writes)
    {
      ghost var start := kernel.net;
      var undesired := Without(nl.status.value.lastAttempted, AllNames(links));
      ghost var downed, down, deleted;
      ok, downed, down, deleted := DeleteLinks(kernel, nl.status, undesired);
      DeletesNothing(start, down, deleted, undesired);
      DeletionFewerVnids(start, down, deleted);
      NoRidesAfterDeletion(start, down, deleted, listed);
      DeletionKeepsDown(start, down, deleted, links);
    }

    /** The names of the managed links only: recorded names are subject to updates and removal. */
    method ManagedNameList(links: Links) returns (names: seq<string>)
      ensures Elements(names) == ManagedNames(links)
      // The API keeps the recorded list a set.
      ensures ManagedNamesDistinct(links) ==> forall i, j :: 0 <= i < j < |names| ==> names[i] != names[j]
    {
      names := [];
      var rest := links.Keys;
      while rest != {}
        invariant rest <= links.Keys
        invariant ManagedNamesDistinct(links) ==> forall i, j :: 0 <= i < j < |names| ==> names[i] != names[j]
        invariant Elements(names) == set r | r in links.Keys - rest && IsManaged(links[r]) :: links[r].linkName
      {
        var r :| r in rest;
        if IsManaged(links[r]) {
          assert ManagedNamesDistinct(links) ==> links[r].linkName !in Elements(names);
          assert Elements(names + [links[r].linkName]) == Elements(names) + {links[r].linkName};
          names := names + [links[r].linkName];
        }
        rest := rest - {r};
      }
    }

    /** Stores what is about to be created. Interfaces that an unmanaged link asks for are to be handed over to it. */
    method UpdateLastAttempted(cached: Memory, nl: Memory, links: Links, ghost claimed: set<string>) returns (ok: bool)
      requires Armed(cached, nl, claimed) && ManagedNames(links) <= claimed && pledged == {}
      requires AllNames(links) == ManagedNames(links) + UnmanagedNames(links)
      requires kernel.owned !! Undesired(nl.status.value, links)
      modifies this`pledged, kernel`owned, api, cached, nl, cached.status, nl.status
      ensures Armed(cached, nl, claimed)
      ensures fresh(nl.status) && (fresh(cached.status) || cached.status == old(cached.status))
      // The interfaces are handed over with the record, not before.
      ensures pledged == UnmanagedNames(links)
      ensures kernel.owned == old(kernel.owned) - (UnmanagedNames(links) - StoredRecord(api.slot))
      ensures api.faults >= old(api.faults) && (api.faults == old(api.faults) ==> ok)
      ensures ok ==> api.slot.value.status == nl.status.value
      ensures Elements(nl.status.value.lastAttempted) == ManagedNames(links)
      ensures nl.status.value.linkConditions == old(nl.status.value).linkConditions
      ensures !ok ==> nl.status.value.ready == Some(False)
    {
      SetReady(nl.status, Unknown);
      var names := ManagedNameList(links);
      pledged := UnmanagedNames(links);
      nl.status.value := nl.status.value.(lastAttempted := names);
      ok := PatchNodeLinks(cached, nl, claimed);
      if !ok {
        SetReady(nl.status, False);
      }
    }

    method UpsertAll(nl: Memory, links: Links, g: Dependents, order: seq<string>)
      returns (ok: bool, ghost failed: set<string>)
      requires watchedLinkNames == AllNames(links)
      requires kernel.Valid() && Planned(links, g, order) && NoUnmanagedRides(kernel.net, links)
      requires VerdictsKnown(nl.status.value.linkConditions, links)
      requires MissingNotReady(nl.status.value.linkConditions, links)
      modifies kernel, nl.status
      ensures kernel.Valid() && Confined(links, old(kernel.net), kernel.net)
      ensures ok <==> failed == {}
      ensures ok ==> AllDesired(kernel.net, links) && NoneMissing(links)
      ensures Attempted(links, kernel.net, nl.status.value.linkConditions, failed)
      ensures kernel.faults == old(kernel.faults) ==> Explicable(links, old(kernel.net), kernel.net, failed)
      ensures SameValidity(old(nl.status.value).linkConditions, nl.status.value.linkConditions, {})
      ensures !ok ==> nl.status.value.ready == Some(False)
      ensures kernel.faults >= old(kernel.faults)
      ensures ok ==> AllSeen(kernel.seen, links, kernel.faults == old(kernel.faults))
      ensures AllDesired(old(kernel.net), links) ==> kernel.writes == old(kernel.writes)
      ensures MissingDown(old(kernel.net), links) ==> MissingDown(kernel.net, links)
      ensures kernel.owned <= old(kernel.owned) + ManagedNames(links)
      ensures old(kernel.targets) <= kernel.targets <= old(kernel.targets) + ManagedNames(links)
      ensures nl.status.value.lastAttempted == old(nl.status.value).lastAttempted
    {
      ghost var start, before, turns := kernel.net, nl.status.value, [];
      ok, failed, turns := UpsertLinks(kernel, nl.status, order, links, g);
      AllOrdered(links, g, order);
      MissingDownAtEnd(links, g, order, start, kernel.net, turns);
      ReportedMeansShown(before, nl.status.value, links, order, failed);
      if kernel.faults == old(kernel.faults) {
        JustifiedByCulprits(links, start, kernel.net, failed);
      }
    }

    /** Stores the outcome; `ok` says that the reconcile succeeded as a whole. */
    method Report(cached: Memory, nl: Memory, upserted: bool, ghost claimed: set<string>) returns (ok: bool)
      requires Armed(cached, nl, claimed) && (!upserted ==> nl.status.value.ready == Some(False))
      modifies kernel`owned, api, cached, nl, cached.status, nl.status
      ensures Holds(claimed) && api.faults >= old(api.faults)
      ensures nl.status.value.linkConditions == old(nl.status.value).linkConditions
      ensures ok ==> upserted && Guarded(api.slot, FINALIZER)
      ensures ok ==> api.slot.value.status == old(nl.status.value).(ready := Some(True))
      ensures api.faults == old(api.faults) ==> (ok <==> upserted) && Told(ok) && Stored(nl)
    {
      if !upserted {
        HandleError(cached, nl, false, claimed);
        return false;
      }
      SetReady(nl.status, True);
      ok := PatchNodeLinks(cached, nl, claimed);
    }

    /** Upserts all links and reports the outcome. */
    method UpsertAndReport(cached: Memory, nl: Memory, links: Links, g: Dependents, order: seq<string>,
                           ghost claimed: set<string>)
      returns (ok: bool, ghost failed: set<string>)
      requires watchedLinkNames == AllNames(links)
      requires Armed(cached, nl, claimed) && ManagedNames(links) <= claimed
      requires api.slot.value.status == nl.status.value
      requires Elements(nl.status.value.lastAttempted) == ManagedNames(links)
      requires Planned(links, g, order) && NoUnmanagedRides(kernel.net, links)
      requires VerdictsKnown(nl.status.value.linkConditions, links)
      requires MissingNotReady(nl.status.value.linkConditions, links)
      modifies kernel, api, cached, nl, cached.status, nl.status
      ensures Holds(claimed) && Confined(links, old(kernel.net), kernel.net)
      ensures ok ==> failed == {} && Converged(links)
      ensures Attempted(links, kernel.net, nl.status.value.linkConditions, failed)
      ensures kernel.faults == old(kernel.faults) ==> Explicable(links, old(kernel.net), kernel.net, failed)
      ensures SameValidity(old(nl.status.value).linkConditions, nl.status.value.linkConditions, {})
      ensures api.faults == old(api.faults) ==> Told(ok) && Stored(nl) && (failed == {} ==> ok)
      ensures kernel.faults >= old(kernel.faults) && api.faults >= old(api.faults)
      ensures ok ==> AllSeen(kernel.seen, links, kernel.faults == old(kernel.faults))
      ensures AllDesired(old(kernel.net), links) ==> kernel.writes == old(kernel.writes)
      ensures MissingDown(old(kernel.net), links) ==> MissingDown(kernel.net, links)
      ensures kernel.targets <= old(kernel.targets) + ManagedNames(links)
    {
      var upserted;
      upserted, failed := UpsertAll(nl, links, g, order);
      assert Armed(cached, nl, claimed) by {
        assert kernel.owned <= ManagedNames(links);
        assert Elements(nl.status.value.lastAttempted) == ManagedNames(links);
      }
      ok := Report(cached, nl, upserted, claimed);
    }

    /** Everything before the record of the attempt: only set-downs and deletions. */
    method Clear(nl: Memory, links: Links, g: Dependents, order: seq<string>, listed: Links)
      returns (ok: bool, ghost checked: bool)
      requires kernel.Valid() && Planned(links, g, order) && NoUnmanagedRides(kernel.net, listed)
      modifies kernel`net, kernel`owned, kernel`targets, kernel`faults, kernel`writes, nl.status
      ensures kernel.Valid() && NoUnmanagedRides(kernel.net, listed) && FewerVnids(old(kernel.net), kernel.net)
      ensures nl.status.value.lastAttempted == old(nl.status.value).lastAttempted
      ensures kernel.owned <= old(kernel.owned)
      ensures kernel.targets <= old(kernel.targets) + ManagedNames(links) + Undesired(old(nl.status.value), links)
      ensures kernel.faults >= old(kernel.faults) && (ok <==> kernel.faults == old(kernel.faults)) && (ok ==> checked)
      ensures !ok ==> nl.status.value.ready == Some(False)
      ensures checked ==> MissingDown(kernel.net, links)
      ensures checked ==>
        VerdictsKnown(nl.status.value.linkConditions, links) && MissingNotReady(nl.status.value.linkConditions, links)
      ensures SameValidity(old(nl.status.value).linkConditions, nl.status.value.linkConditions,
                           Undesired(old(nl.status.value), links))
      ensures ok ==> Undesired(nl.status.value, links) !! kernel.owned + kernel.net.ifaces.Keys
      ensures NoneMissing(links) && Undesired(old(nl.status.value), links) == {} ==>
        kernel.net == old(kernel.net) && kernel.writes == old(kernel.writes)
    {
      ghost var start, before := kernel.net, nl.status.value;
      ok := SetDownMissing(nl, links, g, order, listed);
      checked := ok;
      if ok {
        ghost var middle, known := kernel.net, nl.status.value;
        AllOrdered(links, g, order);
        CheckedAll(before, known, links, order);
        ok := DeleteUndesired(nl, links, order, listed);
        FewerVnidsTransitive(start, middle, kernel.net);
        StillKnown(known, nl.status.value, links, Undesired(before, links));
      }
    }

    /** ... and if that fails, the reconcile ends with an error. */
    method ClearOrReport(cached: Memory, nl: Memory, links: Links, g: Dependents, order: seq<string>, listed: Links,
                         ghost claimed: set<string>)
      returns (ok: bool, ghost checked: bool)
      requires Armed(cached, nl, claimed) && pledged == {} && Planned(links, g, order)
      requires Fetched(links, listed) && NoUnmanagedRides(kernel.net, listed) && ManagedNames(links) <= claimed
      modifies kernel`net, kernel`owned, kernel`targets, kernel`faults, kernel`writes
      modifies api, cached, nl, cached.status, nl.status
      ensures Holds(claimed) && NoUnmanagedRides(kernel.net, listed) && FewerVnids(old(kernel.net), kernel.net)
      ensures fresh(nl.status) || nl.status == old(nl.status)
      ensures fresh(cached.status) || cached.status == old(cached.status)
      ensures ok ==> Armed(cached, nl, claimed) && api.faults == old(api.faults)
      ensures ok ==> Undesired(old(nl.status.value), links) !! kernel.owned + kernel.net.ifaces.Keys
      ensures ok ==> nl.status.value.lastAttempted == old(nl.status.value).lastAttempted
      ensures kernel.targets <= old(kernel.targets) + (claimed - UnmanagedNames(links))
      ensures kernel.faults >= old(kernel.faults) && (ok <==> kernel.faults == old(kernel.faults)) && (ok ==> checked)
      ensures api.faults >= old(api.faults) && (!ok && api.faults == old(api.faults) ==> Told(false) && Stored(nl))
      ensures checked ==> MissingDown(kernel.net, links)
      ensures checked ==>
        VerdictsKnown(nl.status.value.linkConditions, links) && MissingNotReady(nl.status.value.linkConditions, links)
      ensures SameValidity(old(nl.status.value).linkConditions, nl.status.value.linkConditions,
                           Undesired(old(nl.status.value), links))
      ensures NoneMissing(links) && Undesired(old(nl.status.value), links) == {} ==>
        kernel.net == old(kernel.net) && kernel.writes == old(kernel.writes)
    {
      WithinClaims(kernel.net, links, listed, nl.status.value, claimed);
      ok, checked := Clear(nl, links, g, order, listed);
      assert Armed(cached, nl, claimed) by {
        assert kernel.owned <= old(kernel.owned) && kernel.targets <= claimed;
      }
      if !ok {
        HandleError(cached, nl, false, claimed);
      }
    }

    /** ... and from the record on. `failed` are the links whose upsert failed, if the links were upserted at all. */
    method RecordAndUpsert(cached: Memory, nl: Memory, links: Links, g: Dependents, order: seq<string>, listed: Links,
                           ghost claimed: set<string>)
      returns (ok: bool, ghost failed: Option<set<string>>)
      requires watchedLinkNames == AllNames(links)
      requires Armed(cached, nl, claimed) && pledged == {} && Planned(links, g, order)
      requires VerdictsKnown(nl.status.value.linkConditions, links)
      requires MissingNotReady(nl.status.value.linkConditions, links)
      requires Fetched(links, listed) && NoUnmanagedRides(kernel.net, listed) && ManagedNames(links) <= claimed
      requires kernel.owned !! Undesired(nl.status.value, links)
      modifies this`pledged, kernel, api, cached, nl, cached.status, nl.status
      ensures Holds(claimed) && NoUnmanagedRides(kernel.net, listed)
      ensures ok ==> failed == Some({}) && Converged(links)
      ensures failed.Some? ==> Attempted(links, kernel.net, nl.status.value.linkConditions, failed.value)
      ensures failed.Some? && kernel.faults == old(kernel.faults) ==>
        Explicable(links, old(kernel.net), kernel.net, failed.value)
      ensures VerdictsKnown(nl.status.value.linkConditions, links)
      ensures SameValidity(old(nl.status.value).linkConditions, nl.status.value.linkConditions, {})
      ensures api.faults == old(api.faults) ==> Told(ok) && Stored(nl) && failed.Some? && (failed == Some({}) ==> ok)
      ensures kernel.faults >= old(kernel.faults) && api.faults >= old(api.faults)
      ensures ok ==> AllSeen(kernel.seen, links, kernel.faults == old(kernel.faults))
      ensures MissingDown(old(kernel.net), links) ==> MissingDown(kernel.net, links)
      ensures kernel.net.ifaces.Keys <= old(kernel.net).ifaces.Keys + ManagedNames(links)
      ensures AllDesired(old(kernel.net), links) ==>
        kernel.net == old(kernel.net) && kernel.writes == old(kernel.writes)
      ensures kernel.targets <= old(kernel.targets) + ManagedNames(links)
    {
      ghost var net := kernel.net;
      FetchedIsAlone(net, links, listed);
      failed := None;
      ok := UpdateLastAttempted(cached, nl, links, claimed);
      if !ok {
        HandleError(cached, nl, false, claimed);
        return;
      }
      ghost var failures;
      ok, failures := UpsertAndReport(cached, nl, links, g, order, claimed);
      failed := Some(failures);
      NoRidesAfterWork(net, kernel.net, listed, links);
    }

    /** Both: brings planned links to their desired state. */
    method Apply(cached: Memory, nl: Memory, links: Links, g: Dependents, order: seq<string>, listed: Links,
                 ghost claimed: set<string>)
      returns (ok: bool, ghost checked: bool, ghost failed: Option<set<string>>)
      requires watchedLinkNames == AllNames(links)
      requires Armed(cached, nl, claimed) && pledged == {} && Planned(links, g, order)
      requires Fetched(links, listed) && NoUnmanagedRides(kernel.net, listed) && ManagedNames(links) <= claimed
      modifies this`pledged, kernel, api, cached, nl, cached.status, nl.status
      ensures Holds(claimed) && NoUnmanagedRides(kernel.net, listed)
      ensures ok ==> failed == Some({}) && Converged(links)
      ensures ok ==> Undesired(old(nl.status.value), links) !! kernel.net.ifaces.Keys
      ensures failed.Some? ==> Attempted(links, kernel.net, nl.status.value.linkConditions, failed.value)
      ensures failed.Some? && kernel.faults == old(kernel.faults) ==>
        Explicable(links, old(kernel.net), kernel.net, failed.value)
      ensures checked ==> MissingDown(kernel.net, links) && VerdictsKnown(nl.status.value.linkConditions, links)
      ensures kernel.faults == old(kernel.faults) ==> checked
      ensures SameValidity(old(nl.status.value).linkConditions, nl.status.value.linkConditions,
                           Undesired(old(nl.status.value), links))
      ensures api.faults == old(api.faults) ==> Told(ok) && Stored(nl) && (failed == Some({}) ==> ok)
      ensures api.faults == old(api.faults) && kernel.faults == old(kernel.faults) ==> failed.Some?
      ensures kernel.faults >= old(kernel.faults) && api.faults >= old(api.faults)
      ensures ok ==> AllSeen(kernel.seen, links, kernel.faults == old(kernel.faults))
      ensures Quiet(old(kernel.net), links, old(nl.status.value.lastAttempted)) ==>
        kernel.net == old(kernel.net) && kernel.writes == old(kernel.writes)
      ensures kernel.targets <= old(kernel.targets) + (claimed - UnmanagedNames(links))
    {
      ghost var start, cleared := kernel.net, kernel.net;
      ok, checked := ClearOrReport(cached, nl, links, g, order, listed, claimed);
      cleared, failed := kernel.net, None;
      if ok {
        ok, failed := RecordAndUpsert(cached, nl, links, g, order, listed, claimed);
        if failed.Some? && kernel.faults == old(kernel.faults) {
          ExplicableEarlier(links, start, cleared, kernel.net, failed.value);
        }
      }
    }

    /** Validates and orders the links, then applies them. Their names are watched before any interface is read. */
    method PlanAndApply(cached: Memory, nl: Memory, links: Links, listed: Links, ghost claimed: set<string>,
                        ghost start: Net)
      returns (ok: bool, ghost checked: bool, ghost failed: Option<set<string>>)
      requires watchedLinkNames == AllNames(links)
      requires Armed(cached, nl, claimed) && pledged == {} && kernel.net == start
      requires Fetched(links, listed) && NoUnmanagedRides(kernel.net, listed) && ManagedNames(links) <= claimed
      modifies this`pledged, kernel, api, cached, nl, cached.status, nl.status
      ensures Holds(claimed) && NoUnmanagedRides(kernel.net, listed)
      ensures ok ==> failed == Some({}) && Acceptable(links) && Converged(links)
      ensures ok ==> Undesired(old(nl.status.value), links) !! kernel.net.ifaces.Keys
      ensures failed.Some? ==> Attempted(links, kernel.net, nl.status.value.linkConditions, failed.value)
      ensures failed.Some? && kernel.faults == old(kernel.faults) ==>
        Explicable(links, start, kernel.net, failed.value)
      ensures checked ==> MissingDown(kernel.net, links) && VerdictsKnown(nl.status.value.linkConditions, links)
      ensures Acceptable(links) && kernel.faults == old(kernel.faults) ==> checked
      ensures Judged(nl.status.value.linkConditions, links, links.Keys)
      ensures api.faults == old(api.faults) ==> Told(ok) && Stored(nl) && (failed == Some({}) ==> ok)
      ensures api.faults == old(api.faults) && kernel.faults == old(kernel.faults) && Acceptable(links) ==> failed.Some?
      ensures kernel.faults >= old(kernel.faults) && api.faults >= old(api.faults)
      ensures ok ==> AllSeen(kernel.seen, links, kernel.faults == old(kernel.faults))
      ensures Idle(old(kernel.net), links, old(nl.status.value.lastAttempted)) ==>
        kernel.net == old(kernel.net) && kernel.writes == old(kernel.writes)
      ensures kernel.targets <= old(kernel.targets) + (claimed - UnmanagedNames(links))
    {
      FetchedIsAlone(kernel.net, links, listed);
      var g, order;
      ok, g, order := PlanLinks(nl.status, links);
      checked, failed := false, None;
      ghost var judged := nl.status.value;
      if !ok {
        HandleError(cached, nl, false, claimed);
        return;
      }
      ok, checked, failed := Apply(cached, nl, links, g, order, listed, claimed);
      StillJudged(judged.linkConditions, nl.status.value.linkConditions, links, Undesired(judged, links));
    }

    /**
     * Brings the node to the state its Links ask for. `fetched` are the Links, if they could be read; `checked` says
     * that the check for missing dependencies was passed; `failed` are the links whose upsert failed, if the links were
     * upserted at all.
     */
    method HandleUpsert(cached: Memory, nl: Memory, listed: Links, ghost claimed: set<string>)
      returns (ok: bool, fetched: Option<Links>, ghost checked: bool, ghost failed: Option<set<string>>)
      requires Working(cached, nl, claimed) && cached.meta == nl.meta && pledged == {}
      requires NoUnmanagedRides(kernel.net, listed)
      modifies this`watchedLinkNames, this`pledged, kernel, api, cached, nl, cached.status, nl.status
      ensures Holds(Claims(claimed, fetched)) && NoUnmanagedRides(kernel.net, listed)
      ensures fetched.Some? ==> Fetched(fetched.value, listed)
      ensures fetched.None? ==> !ok && !checked && failed.None?
      // Convergence, with the record of what was attempted in place.
      ensures ok ==> fetched.Some? && Acceptable(fetched.value) && Converged(fetched.value) && failed == Some({})
      // What was recorded and no link asks for any more is gone.
      ensures ok ==> Undesired(old(nl.status.value), fetched.value) !! kernel.net.ifaces.Keys
      // Every interface that a managed link asks for was read after the watched names were set; if no read failed, all
      // were.
      ensures watchedLinkNames == if fetched.Some? then AllNames(fetched.value) else old(watchedLinkNames)
      ensures ok ==> AllSeen(kernel.seen, fetched.value, kernel.faults == old(kernel.faults))
      // Failure isolation.
      ensures failed.Some? ==> Attempted(fetched.value, kernel.net, nl.status.value.linkConditions, failed.value)
      ensures failed.Some? && kernel.faults == old(kernel.faults) ==>
        Explicable(fetched.value, old(kernel.net), kernel.net, failed.value)
      // With the finalizer secured, it fails only for a reason.
      ensures kernel.faults >= old(kernel.faults) && api.faults >= old(api.faults)
      ensures old(CanSecure(cached, nl)) && fetched.Some? ==> fetched.value.Keys == Elements(old(nl.meta.spec))
      ensures old(CanSecure(cached, nl)) && api.faults == old(api.faults) && Elements(old(nl.meta.spec)) <= listed.Keys
        ==> fetched.Some?
      ensures fetched.Some? && Acceptable(fetched.value) ==>
        failed.Some? || kernel.faults > old(kernel.faults) || api.faults > old(api.faults)
      ensures failed == Some({}) ==> ok || api.faults > old(api.faults)
      // The stored status tells the outcome and the verdicts.
      ensures (old(CanSecure(cached, nl)) || fetched.Some?) && api.faults == old(api.faults) ==> Told(ok) && Stored(nl)
      ensures fetched.Some? ==> Judged(nl.status.value.linkConditions, fetched.value, fetched.value.Keys)
      // A link that misses a required dependency stays down to the end.
      ensures checked ==>
        MissingDown(kernel.net, fetched.value) && VerdictsKnown(nl.status.value.linkConditions, fetched.value)
      ensures fetched.Some? && Acceptable(fetched.value) && kernel.faults == old(kernel.faults) ==> checked
      // Links that cannot be accepted change nothing, and neither do links that are as desired: no call asks for a
      // change.
      ensures (fetched.Some? ==> Idle(old(kernel.net), fetched.value, old(nl.status.value.lastAttempted))) ==>
        kernel.net == old(kernel.net) && kernel.writes == old(kernel.writes)
      // No interface that an unmanaged link asks for is set down, updated or deleted.
      ensures kernel.targets <= old(kernel.targets) +
        if fetched.Some? then Claims(claimed, fetched) - UnmanagedNames(fetched.value) else {}
    {
      ghost var start := kernel.net;
      ok, checked, failed := false, false, None;
      fetched := FetchLinks(cached, nl, listed, claimed);
      if fetched.Some? {
        ok, checked, failed := PlanAndApply(cached, nl, fetched.value, listed, Claims(claimed, fetched), start);
      }
    }

    method DropFinalizer(cached: Memory, nl: Memory, ghost claimed: set<string>) returns (ok: bool)
      requires Working(cached, nl, claimed) && cached.meta == nl.meta && FINALIZER in nl.meta.finalizers
      requires kernel.owned == {} && api.slot == Some(cached.Value())
      modifies kernel`owned, api, cached, nl, cached.status, nl.status
      ensures Holds(claimed) && kernel.owned == {} && api.faults >= old(api.faults)
      ensures api.calm && api.faults == old(api.faults) ==> ok
      ensures ok && api.calm ==> Released(old(nl.meta), api.slot)
    {
      nl.meta := nl.meta.(finalizers := Filtered(nl.meta.finalizers, FINALIZER));
      ok := PatchNodeLinks(cached, nl, claimed);
      if !ok {
        HandleError(cached, nl, true, claimed);
      }
    }

    /** Deletes everything recorded, then drops the finalizer. */
    method HandleDeletion(cached: Memory, nl: Memory, ghost claimed: set<string>) returns (ok: bool)
      requires Working(cached, nl, claimed) && cached.meta == nl.meta && api.slot == Some(cached.Value())
      requires pledged == {}
      modifies this`watchedLinkNames, kernel, api, cached, nl, cached.status, nl.status
      ensures Holds(claimed)
      ensures ok ==> kernel.owned == {}
      // Unless a netlink call fails, everything recorded goes, even if the finalizer cannot be dropped then.
      ensures kernel.faults >= old(kernel.faults) && api.faults >= old(api.faults)
      ensures ok && old(FINALIZER in nl.meta.finalizers) ==> kernel.faults == old(kernel.faults)
      ensures api.calm && kernel.faults == old(kernel.faults) && api.faults == old(api.faults) ==> ok
      ensures old(FINALIZER in nl.meta.finalizers) && ok && api.calm ==> Released(old(nl.meta), api.slot)
      ensures old(FINALIZER in nl.meta.finalizers) && kernel.faults == old(kernel.faults) ==>
        && watchedLinkNames == {} && kernel.owned == {}
        && forall n :: n in old(nl.status.value.lastAttempted) ==> n !in kernel.net.ifaces
      ensures old(FINALIZER !in nl.meta.finalizers) ==>
        kernel.net == old(kernel.net) && kernel.writes == old(kernel.writes)
    {
      if FINALIZER !in nl.meta.finalizers { return true; }
      ghost var downed, down, deleted;
      ok, downed, down, deleted := DeleteLinks(kernel, nl.status, nl.status.value.lastAttempted);
      if !ok {
        HandleError(cached, nl, false, claimed);
        return;
      }
      watchedLinkNames := {};
      ok := DropFinalizer(cached, nl, claimed);
    }

    /** The stored NodeLinks is not being deleted, and has the finalizer unless nobody interferes with adding it. */
    ghost predicate Upsertable() reads api {
      api.slot.Some? && !api.slot.value.meta.deleting && (Guarded(api.slot, FINALIZER) || api.calm)
    }

    /**
     * One reconcile: it reads the stored NodeLinks and, unless that is being deleted, its Links. `listed` are the Links
     * that the API serves under the names that the NodeLinks lists when they are fetched.
     */
    method Reconcile(listed: Links, ghost claimed: set<string>)
      returns (ok: bool, upsert: bool, fetched: Option<Links>, ghost failed: Option<set<string>>)
      requires Holds(claimed) && NoUnmanagedRides(kernel.net, listed)
      modifies this, kernel, api
      ensures Holds(Claims(claimed, fetched))
      ensures upsert <==> old(api.slot.Some? && !api.slot.value.meta.deleting)
      ensures upsert ==> NoUnmanagedRides(kernel.net, listed)
      ensures fetched.Some? ==> upsert && Fetched(fetched.value, listed)
      ensures failed.Some? ==> fetched.Some?
      ensures kernel.faults >= old(kernel.faults) && api.faults >= old(api.faults)
      // Convergence.
      ensures upsert && ok ==> fetched.Some? && Converged(fetched.value) && failed == Some({})
      ensures upsert && ok ==> Undesired(old(api.slot).value.status, fetched.value) !! kernel.net.ifaces.Keys
      ensures upsert && ok ==> AllSeen(kernel.seen, fetched.value, kernel.faults == old(kernel.faults))
      // Failure isolation, and what the stored status says about it.
      ensures failed.Some? ==> Isolated(fetched.value, kernel.net, failed.value)
      ensures failed.Some? && kernel.faults == old(kernel.faults) ==>
        Explicable(fetched.value, old(kernel.net), kernel.net, failed.value)
      ensures failed.Some? && api.faults == old(api.faults) ==>
        Guarded(api.slot, FINALIZER) && Shown(api.slot.value.status.linkConditions, fetched.value, failed.value)
      ensures fetched.Some? && api.faults == old(api.faults) ==>
        && Guarded(api.slot, FINALIZER)
        && Judged(api.slot.value.status.linkConditions, fetched.value, fetched.value.Keys)
      ensures fetched.Some? && Acceptable(fetched.value) && kernel.faults == old(kernel.faults) ==>
        && MissingDown(kernel.net, fetched.value)
        && (api.faults == old(api.faults) ==>
              Guarded(api.slot, FINALIZER) && VerdictsKnown(api.slot.value.status.linkConditions, fetched.value))
      // It fails only for a reason, and says so.
      ensures old(Upsertable()) && fetched.Some? ==> fetched.value.Keys == Elements(old(api.slot).value.meta.spec)
      ensures old(Upsertable()) && api.faults == old(api.faults) ==> Told(ok)
      ensures old(Upsertable()) && api.faults == old(api.faults) && fetched.None? ==>
        !(Elements(old(api.slot).value.meta.spec) <= listed.Keys)
      ensures fetched.Some? && Acceptable(fetched.value) ==>
        failed.Some? || kernel.faults > old(kernel.faults) || api.faults > old(api.faults)
      ensures fetched.Some? && Acceptable(fetched.value) && Attainable(fetched.value, old(kernel.net), kernel.net) ==>
        ok || kernel.faults > old(kernel.faults) || api.faults > old(api.faults)
      // Quiescence.
      ensures upsert ==>
        (fetched.Some? ==> Idle(old(kernel.net), fetched.value, old(api.slot).value.status.lastAttempted)) ==>
        kernel.net == old(kernel.net) && kernel.writes == old(kernel.writes)
      // Deletion.
      ensures !upsert && ok ==> kernel.owned == {}
      ensures !upsert && api.calm && kernel.faults == old(kernel.faults) && api.faults == old(api.faults) ==> ok
    {
      upsert, fetched, failed := false, None, None;
      if api.slot.None? { return true, upsert, fetched, failed; }
      var nl := new Resource(api.slot.value);
      var cached := new Resource(api.slot.value);
      pledged := {};
      if nl.meta.deleting {
        ok := HandleDeletion(cached, nl, claimed);
      } else {
        ghost var checked;
        ok, fetched, checked, failed := HandleUpsert(cached, nl, listed, claimed);
        if failed.Some? && kernel.faults == old(kernel.faults) {
          AttainableMeansNoFailure(fetched.value, old(kernel.net), kernel.net, failed.value);
        }
        upsert := true;
      }
    }

    /**
     * After a successful reconcile, another one that finds the same Links leaves the kernel alone, even if it fails: no
     * call so much as asks for a change. And links that swap their VNIDs need one reconcile to give up the old ones,
     * and another one to succeed. `settled` is the kernel in between, `written` the number of writes so far.
     */
    method ReconcileTwice(listed: Links, ghost claimed: set<string>)
      returns (converged: bool, ok: bool, first: Option<Links>, second: Option<Links>, ghost settled: Net,
               ghost written: nat)
      requires Holds(claimed) && NoUnmanagedRides(kernel.net, listed)
      modifies this, kernel, api
      ensures converged ==> first.Some? && AllDesired(settled, first.value)
      ensures converged && (second.Some? ==> second == first) ==> kernel.net == settled && kernel.writes == written
      ensures kernel.faults >= old(kernel.faults) && api.faults >= old(api.faults)
      ensures first.Some? && second == first && Acceptable(first.value) && NoneMissing(first.value) ==>
        VnidsFree(first.value, old(kernel.net)) && UnmanagedNames(first.value) <= kernel.net.ifaces.Keys ==>
          ok || kernel.faults > old(kernel.faults) || api.faults > old(api.faults)
    {
      var upsert, again;
      ghost var failed;
      converged, upsert, first, failed := Reconcile(listed, claimed);
      settled, written, second := kernel.net, kernel.writes, None;
      ghost var explicable := failed.Some? && kernel.faults == old(kernel.faults);
      ok, again := true, false;
      if upsert {
        ok, again, second, failed := Reconcile(listed, Claims(claimed, first));
        if explicable && NoneMissing(first.value) && VnidsFree(first.value, old(kernel.net)) {
          NoVnidTaken(first.value, old(kernel.net), settled);
        }
      }
      converged := converged && again;
    }

    /**
     * Any run: others change the API object and the kernel at will, and reconciles happen in between, over any Links.
     * A crash is a reconcile in which every call from some point on fails: failed calls change nothing.
     */
    method Run(steps: nat) returns (ghost claimed: set<string>, ghost fetches: seq<Links>)
      requires Holds({})
      modifies this, kernel, api
      ensures Holds(claimed) && claimed == EverManaged(fetches)
      // Whatever the operator created and still owns is recorded behind the finalizer ...
      ensures forall n :: n in kernel.owned ==>
        Guarded(api.slot, FINALIZER) && n in api.slot.value.status.lastAttempted
      // ... so nothing is left behind once that is gone ...
      ensures !Guarded(api.slot, FINALIZER) ==> kernel.owned == {}
      // ... and a name that no managed Link of this node ever claimed was never acted on.
      ensures forall n :: n in kernel.targets ==> exists links :: links in fetches && n in ManagedNames(links)
    {
      claimed, fetches := {}, [];
      for i := 0 to steps
        invariant Holds(claimed) && claimed == EverManaged(fetches)
      {
        api.Interfere();
        kernel.Disturb();
        var listed: Links := *;
        if NoUnmanagedRides(kernel.net, listed) {
          var _, _, fetched, _ := Reconcile(listed, claimed);
          if fetched.Some? {
            EverManagedMore(fetches, fetched.value);
            claimed, fetches := Claims(claimed, fetched), fetches + [fetched.value];
          }
        }
      }
      EverManagedMeaning(fetches);
    }
  }

  /** The names claimed once `fetched` are known. */
  ghost function Claims(claimed: set<string>, fetched: Option<Links>): set<string> {
    if fetched.Some? then claimed + ManagedNames(fetched.value) else claimed
  }

  /** The names that some managed Link claimed. */
  ghost function EverManaged(fetches: seq<Links>): set<string> {
    if fetches == [] then {} else EverManaged(fetches[..|fetches| - 1]) + ManagedNames(fetches[|fetches| - 1])
  }

  lemma EverManagedMore(fetches: seq<Links>, links: Links)
    ensures EverManaged(fetches + [links]) == EverManaged(fetches) + ManagedNames(links)
  {
    assert (fetches + [links])[..|fetches|] == fetches;
  }

  lemma {:induction false} EverManagedMeaning(fetches: seq<Links>)
    ensures forall n :: n in EverManaged(fetches) <==> exists links :: links in fetches && n in ManagedNames(links)
  {
    if fetches != [] {
      EverManagedMeaning(fetches[..|fetches| - 1]);
      assert fetches == fetches[..|fetches| - 1] + [fetches[|fetches| - 1]];
    }
  }
}
