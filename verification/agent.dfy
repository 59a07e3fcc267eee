/** The node agent: one NodeLinks resource, one kernel. */
module Agent {
  import opened Wrappers
  import opened Kernel
  import opened Netlink
  import opened Links
  import opened LinkGraph
  import opened Status
  import opened Patch
  import opened Deletion
  import opened MissingDependencies
  import opened Soundness

  type NodeLinks = Object<seq<string>, NodeLinksStatus>

  const FINALIZER := "nodelinks.nodenetworkoperator.soliddowant.dev/finalizer"

  const BLANK := NodeLinksStatus(None, map[], [])

  // ---------- What one patch does to the stored NodeLinks ----------

  /** Everything the operator owns is recorded in a stored NodeLinks that carries the agent's finalizer. */
  ghost predicate Tracked(owned: set<string>, slot: Option<NodeLinks>) {
    owned != {} ==> Guarded(slot, FINALIZER) && owned <= Elements(slot.value.status.lastAttempted)
  }

  ghost function StoredRecord(slot: Option<NodeLinks>): set<string> {
    if slot.Some? then Elements(slot.value.status.lastAttempted) else {}
  }

  ghost predicate Recorded(slot: Option<NodeLinks>, claimed: set<string>) {
    slot.Some? ==> Elements(slot.value.status.lastAttempted) <= claimed
  }

  ghost predicate IsNodeLinksApi(e: Endpoint<seq<string>, NodeLinksStatus>) {
    e.finalizer == FINALIZER && e.blank == BLANK && e.merge == MergeStatus
  }

  lemma NodeLinksMergesExactly(e: Endpoint<seq<string>, NodeLinksStatus>)
    requires IsNodeLinksApi(e)
    ensures MergesExactly(e.merge)
  {
    forall x, y ensures e.merge(x, x, y) == y {
      MergeStatusIsExact(x, y);
    }
  }

  /** Whatever a patch leaves recorded was recorded before, or asked for. */
  lemma PatchInventsNoRecord(e: Endpoint<seq<string>, NodeLinksStatus>, before: Option<NodeLinks>, copy: NodeLinks,
                             asked: NodeLinks, t: Trace<seq<string>, NodeLinksStatus>, ok: bool,
                             after: Option<NodeLinks>, copy': NodeLinks, memory': NodeLinks)
    requires IsNodeLinksApi(e)
    requires Patched(e, before, copy, asked, t, ok, after, copy', memory')
    ensures after.Some? ==>
      || after.value.status.lastAttempted in [[], asked.status.lastAttempted]
      || (before.Some? && after.value.status.lastAttempted == before.value.status.lastAttempted)
  {
  }

  /** All that a patch of the NodeLinks promises, disturbed or not. */
  lemma NodeLinksPatched(e: Endpoint<seq<string>, NodeLinksStatus>, before: Option<NodeLinks>, copy: NodeLinks,
                         asked: NodeLinks, t: Trace<seq<string>, NodeLinksStatus>, ok: bool, after: Option<NodeLinks>,
                         copy': NodeLinks, memory': NodeLinks)
    requires IsNodeLinksApi(e) && Patched(e, before, copy, asked, t, ok, after, copy', memory')
    requires InStep(FINALIZER, before, copy) && MetaClose(FINALIZER, copy.meta, asked.meta)
    ensures InStep(FINALIZER, after, copy') && MetaClose(FINALIZER, copy'.meta, memory'.meta)
    ensures FINALIZER in asked.meta.finalizers && ok ==>
      Guarded(after, FINALIZER) && after.value.status == memory'.status == asked.status
    ensures Guarded(before, FINALIZER) && FINALIZER in asked.meta.finalizers ==>
      Guarded(after, FINALIZER) && (after.value.status == before.value.status || after.value.status == asked.status)
    ensures Guarded(before, FINALIZER) && Guarded(after, FINALIZER) && !ok ==> after.value.status == before.value.status
    ensures !ok ==> memory'.status == asked.status
    ensures forall claimed :: Recorded(before, claimed) && Elements(asked.status.lastAttempted) <= claimed ==>
      Recorded(after, claimed)
    ensures before == Some(copy) && Undisturbed(before, copy, asked, t) && ok ==>
      after == Left(copy, asked) && memory' == asked
    ensures before == Some(copy) && Undisturbed(before, copy, asked, t) && !ok && Permitted(copy.meta, asked.meta) ==>
      !Impeded(copy.meta, asked.meta, t, memory'.meta)
  {
    NodeLinksMergesExactly(e);
    PatchStaysInStep(e, before, copy, asked, t, ok, after, copy', memory');
    if before == Some(copy) && Undisturbed(before, copy, asked, t) {
      PatchAgrees(e, before, copy, asked, t, ok, after, copy', memory');
    }
    PatchInventsNoRecord(e, before, copy, asked, t, ok, after, copy', memory');
  }

  // ---------- The finalizer ----------

  /** The NodeLinks went with its last finalizer, or it waits for those of others. */
  ghost predicate Released(before: Meta<seq<string>>, slot: Option<NodeLinks>) {
    if before.deleting && Filtered(before.finalizers, FINALIZER) == [] then slot.None?
    else slot.Some? && slot.value.meta == before.(finalizers := Filtered(before.finalizers, FINALIZER))
  }

  // ---------- Undesired links ----------

  /** The names that are not among `others`, in order. */
  function Without(names: seq<string>, others: set<string>): (r: seq<string>)
    ensures Elements(r) == Elements(names) - others
  {
    if names == [] then []
    else
      assert Elements(names) == {names[0]} + Elements(names[1..]);
      var rest := Without(names[1..], others);
      if names[0] in others then rest else
        assert Elements([names[0]] + rest) == {names[0]} + Elements(rest);
        [names[0]] + rest
  }

  function AllNames(links: Links): set<string> {
    set r | r in links :: links[r].linkName
  }

  lemma NoRidesAfterDeletion(net: Net, down: set<string>, deleted: set<string>, links: Links)
    requires NoUnmanagedRides(net, links)
    ensures NoUnmanagedRides(Delete(DownAll(net, down), deleted), links)
  {
    var net' := Delete(DownAll(net, down), deleted);
    forall m, u | m in ManagedNames(links) && u in UnmanagedNames(links) ensures !VanishesWith(net', u, m) {
      assert !VanishesWith(net, u, m);
      var x := Doomed(net.ifaces, {m});
      assert Riders(net'.ifaces, x) <= Riders(net.ifaces, x);
      DoomedIsLeast(net'.ifaces, {m}, x);
    }
  }

  /** Work on managed links of the node lets no unmanaged interface ride on a managed one. */
  lemma NoRidesAfterWork(net: Net, net': Net, listed: Links, links: Links)
    requires NoUnmanagedRides(net, listed) && Keeps(net, net', ManagedNames(links))
    requires ManagedNames(links) <= ManagedNames(listed)
    ensures NoUnmanagedRides(net', listed)
  {
    var ext := External(net, listed);
    ExternalIsClosed(net, listed);
    ClosedMeansNoRides(net', listed, ext);
  }

  /** The Link resources that a NodeLinks names, as the API serves them. */
  ghost predicate Fetched(links: Links, listed: Links) {
    forall r :: r in links ==> r in listed && links[r] == listed[r]
  }

  /** The Links that the API serves under the given names. */
  ghost function Named(served: Links, names: seq<string>): Links {
    map r | r in served && r in names :: served[r]
  }

  /** Which Links are fetched under some names depends on the Links of these names alone. */
  lemma OnlyNamedLinksMatter(served: Links, names: seq<string>, links: Links)
    requires links.Keys == Elements(names)
    ensures Fetched(links, served) <==> Fetched(links, Named(served, names))
    ensures Elements(names) <= served.Keys <==> Elements(names) <= Named(served, names).Keys
  {
  }

  lemma FetchedIsAlone(net: Net, links: Links, listed: Links)
    requires Fetched(links, listed) && NoUnmanagedRides(net, listed)
    ensures NoUnmanagedRides(net, links)
    ensures ManagedNames(links) <= ManagedNames(listed) && UnmanagedNames(links) <= UnmanagedNames(listed)
    ensures ManagedNames(links) !! UnmanagedNames(links)
    ensures ManagedNamesDistinct(links) ==> ManagedNamesAlone(links)
    ensures AllNames(links) == ManagedNames(links) + UnmanagedNames(links)
  {
    forall m | m in ManagedNames(links) ensures m !in UnmanagedNames(links) {
      assert VanishesWith(net, m, m);
    }
    forall a, b | a in links && b in links && IsManaged(links[a]) && !IsManaged(links[b])
      ensures links[a].linkName != links[b].linkName
    {
      assert links[a].linkName in ManagedNames(links) && links[b].linkName in UnmanagedNames(links);
    }
  }
}
