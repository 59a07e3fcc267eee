/** The API server's NodeLinks, as the cluster controller sees them, and which of them list a Link. */
module Cluster {
  import opened Wrappers
  import opened Status
  import opened Patch
  import opened Agent

  const LINK_FINALIZER := "link.nodenetworkoperator.soliddowant.dev/finalizer"

  datatype LinkStatus = LinkStatus(ready: Option<ConditionStatus>, cleanup: Option<ConditionStatus>,
                                   matchedNodes: seq<string>)

  const NO_STATUS := LinkStatus(None, None, [])

  function MergeLinkStatus(stored: LinkStatus, from: LinkStatus, to: LinkStatus): LinkStatus {
    LinkStatus(if from.ready == to.ready && from.cleanup == to.cleanup then stored.ready else to.ready,
               if from.ready == to.ready && from.cleanup == to.cleanup then stored.cleanup else to.cleanup,
               if from.matchedNodes == to.matchedNodes then stored.matchedNodes else to.matchedNodes)
  }

  type Store = map<string, NodeLinks>

  predicate Live(store: Store, node: string) {
    node in store && !store[node].meta.deleting
  }

  /** A NodeLinks that is not being deleted lists the link. */
  predicate Lists(store: Store, node: string, link: string) {
    Live(store, node) && link in store[node].meta.spec
  }

  /** The API keeps the list of matching links a set. */
  predicate ValidStore(store: Store) {
    forall n :: n in store ==> NoDuplicates(store[n].meta.spec)
  }

  /** What users, node agents and the garbage collector may do during a reconcile of a Link. */
  predicate OthersTouch(a: Store, b: Store) {
    forall n :: n in b ==> n in a && b[n].meta.spec == a[n].meta.spec && (a[n].meta.deleting ==> b[n].meta.deleting)
  }

  /** Only the agents are at work: they write statuses, and the finalizers of NodeLinks that are not being deleted. */
  predicate Peaceful(a: Store, b: Store) {
    && a.Keys == b.Keys
    && forall n :: n in a ==>
         && b[n].meta.spec == a[n].meta.spec && b[n].meta.deleting == a[n].meta.deleting
         && (a[n].meta.deleting ==> b[n].meta.finalizers == a[n].meta.finalizers)
  }

  /** What happens to the NodeLinks between two calls of a reconcile, the calmer the less. */
  predicate Meanwhile(calm: bool, a: Store, b: Store) {
    OthersTouch(a, b) && (calm ==> Peaceful(a, b))
  }

  lemma MeanwhileTransitive(calm: bool, a: Store, b: Store, c: Store)
    requires Meanwhile(calm, a, b) && Meanwhile(calm, b, c)
    ensures Meanwhile(calm, a, c)
  {
  }

  /** What may happen between two reconciles of `link`, those of other Links included. */
  predicate Between(link: string, a: Store, b: Store) {
    ValidStore(b) && forall n :: n in b && Lists(b, n, link) ==> Lists(a, n, link)
  }

  /** No membership of another link is added; `Kept` also says that none is lost. */
  ghost predicate OthersNotAdded(link: string, a: Store, b: Store) {
    forall n, m :: m != link && Lists(b, n, m) ==> Lists(a, n, m)
  }

  ghost predicate OthersKept(link: string, a: Store, b: Store) {
    forall n, m :: m != link && Lists(a, n, m) ==> Lists(b, n, m)
  }

  /** All (node, link) pairs of a live NodeLinks and an entry of its spec. */
  ghost function Memberships(store: Store): set<(string, string)> {
    set n, m | n in store && m in store[n].meta.spec && Lists(store, n, m) :: (n, m)
  }

  /** A NodeLinks goes away only with `link` as its last entry. */
  ghost predicate DeletedOnlyEmpty(link: string, a: Store, b: Store) {
    forall n, m :: Live(a, n) && !Live(b, n) && m in a[n].meta.spec ==> m == link
  }

  class ApiServer {
    var nodeLinks: Store
    var nodes: set<string>
    /** The nodes that the Link's selector matches. */
    var matching: set<string>
    /** Whether only the node agents touch the NodeLinks while a reconcile runs, and the nodes stay as they are. */
    const calm: bool
    const link: Endpoint<string, LinkStatus>
    /** How many calls about NodeLinks and nodes have failed for reasons of their own. */
    ghost var faults: nat
    /** The memberships that delete and patch calls of this controller have removed. */
    ghost var dropped: set<(string, string)>

    constructor (nodeLinks: Store, nodes: set<string>, matching: set<string>, calm: bool,
                 link: Endpoint<string, LinkStatus>)
      ensures this.nodeLinks == nodeLinks && this.nodes == nodes && this.matching == matching && this.calm == calm
      ensures this.link == link && dropped == {}
    {
      this.nodeLinks, this.nodes, this.matching, this.calm, this.link := nodeLinks, nodes, matching, calm, link;
      dropped := {};
    }

    /** Whether the call being made fails. */
    method Fails() returns (fails: bool)
      modifies this`faults
      ensures faults == old(faults) + if fails then 1 else 0
    {
      fails := *;
      faults := faults + if fails then 1 else 0;
    }

    method Interfere()
      requires ValidStore(nodeLinks)
      modifies this`nodeLinks, this`nodes, this`matching
      ensures Meanwhile(calm, old(nodeLinks), nodeLinks) && ValidStore(nodeLinks)
      ensures calm ==> matching == old(matching) && nodes == old(nodes)
    {
      var steps :| steps >= 0;
      for i := 0 to steps
        invariant Meanwhile(calm, old(nodeLinks), nodeLinks) && ValidStore(nodeLinks)
        invariant calm ==> matching == old(matching) && nodes == old(nodes)
      {
        if !calm { nodes, matching := *, *; }
        var other: Store := *;
        if Meanwhile(calm, nodeLinks, other) {
          MeanwhileTransitive(calm, old(nodeLinks), nodeLinks, other);
          nodeLinks := other;
        }
      }
    }

    /** The nodes that match right now. */
    method ListMatchingNodes() returns (r: Option<seq<string>>)
      requires ValidStore(nodeLinks)
      modifies this`nodeLinks, this`nodes, this`matching, this`faults
      ensures Meanwhile(calm, old(nodeLinks), nodeLinks) && ValidStore(nodeLinks)
      ensures calm ==> matching == old(matching) && nodes == old(nodes)
      ensures faults >= old(faults) && (r.Some? <==> faults == old(faults))
      ensures r.Some? ==> NoDuplicates(r.value) && forall n :: n in r.value <==> n in matching
    {
      Interfere();
      var fails := Fails();
      if fails { return None; }
      var names, rest := [], matching;
      while rest != {}
        invariant rest <= matching && NoDuplicates(names)
        invariant forall n :: n in names <==> n in matching - rest
      {
        var n :| n in rest;
        assert n !in names;
        names, rest := names + [n], rest - {n};
      }
      r := Some(names);
    }

    method GetNodeLinks(node: string) returns (r: ApiResult, o: Option<NodeLinks>)
      requires ValidStore(nodeLinks)
      modifies this`nodeLinks, this`nodes, this`matching, this`faults
      ensures Meanwhile(calm, old(nodeLinks), nodeLinks) && ValidStore(nodeLinks)
      ensures calm ==> matching == old(matching) && nodes == old(nodes)
      ensures faults >= old(faults) && (r.Failed? <==> faults > old(faults))
      ensures r.Ok? ==> node in nodeLinks && o == Some(nodeLinks[node])
      ensures r.NotFound? ==> node !in nodeLinks
    {
      Interfere();
      var fails := Fails();
      if fails { return Failed, None; }
      if node !in nodeLinks { return NotFound, None; }
      r, o := Ok, Some(nodeLinks[node]);
    }

    method GetNode(node: string) returns (r: ApiResult)
      requires ValidStore(nodeLinks)
      modifies this`nodeLinks, this`nodes, this`matching, this`faults
      ensures Meanwhile(calm, old(nodeLinks), nodeLinks) && ValidStore(nodeLinks)
      ensures calm ==> matching == old(matching) && nodes == old(nodes)
      ensures faults >= old(faults) && (r.Failed? <==> faults > old(faults))
      ensures !r.Failed? ==> (r.Ok? <==> node in nodes)
    {
      Interfere();
      var fails := Fails();
      r := if fails then Failed else if node in nodes then Ok else NotFound;
    }

    /** A delete request on an object with finalizers only marks it. */
    method DeleteNodeLinks(node: string) returns (r: ApiResult, ghost seen: Store)
      requires ValidStore(nodeLinks)
      modifies this
      ensures Meanwhile(calm, old(nodeLinks), seen) && ValidStore(nodeLinks)
      ensures calm ==> matching == old(matching) && nodes == old(nodes)
      ensures faults >= old(faults) && (r.Failed? <==> faults > old(faults))
      ensures r.Ok? ==> nodeLinks == Deleted(seen, node)
      ensures !r.Ok? ==> nodeLinks == seen
      ensures r.NotFound? ==> node !in nodeLinks
      ensures dropped == old(dropped) + (Memberships(seen) - Memberships(nodeLinks))
    {
      Interfere();
      seen := nodeLinks;
      var fails := Fails();
      if fails { return Failed, seen; }
      if node !in nodeLinks { return NotFound, seen; }
      nodeLinks := Deleted(nodeLinks, node);
      dropped := dropped + (Memberships(seen) - Memberships(nodeLinks));
      r := Ok;
    }

    method PatchNodeLinks(node: string, from: Meta<seq<string>>, to: Meta<seq<string>>)
      returns (r: ApiResult, ghost seen: Store)
      requires ValidStore(nodeLinks) && NoDuplicates(to.spec)
      modifies this
      ensures Meanwhile(calm, old(nodeLinks), seen) && ValidStore(nodeLinks)
      ensures calm ==> matching == old(matching) && nodes == old(nodes)
      ensures faults >= old(faults)
      ensures r.Failed? && faults == old(faults) ==>
        node in seen && !Permitted(seen[node].meta, MergeMeta(seen[node].meta, from, to))
      ensures r.Ok? ==> node in seen && nodeLinks == Replaced(seen, node, MergeMeta(seen[node].meta, from, to))
      ensures !r.Ok? ==> nodeLinks == seen
      ensures r.NotFound? ==> node !in nodeLinks
      ensures dropped == old(dropped) + (Memberships(seen) - Memberships(nodeLinks))
    {
      Interfere();
      seen := nodeLinks;
      var fails := Fails();
      if fails { return Failed, seen; }
      if node !in nodeLinks { return NotFound, seen; }
      var merged := MergeMeta(nodeLinks[node].meta, from, to);
      if !Permitted(nodeLinks[node].meta, merged) { return Failed, seen; }
      nodeLinks := Replaced(nodeLinks, node, merged);
      dropped := dropped + (Memberships(seen) - Memberships(nodeLinks));
      r := Ok;
    }

    method CreateNodeLinks(node: string, links: seq<string>) returns (ok: bool, ghost seen: Store)
      requires ValidStore(nodeLinks) && NoDuplicates(links)
      modifies this`nodeLinks, this`nodes, this`matching, this`faults
      ensures Meanwhile(calm, old(nodeLinks), seen) && ValidStore(nodeLinks)
      ensures calm ==> matching == old(matching) && nodes == old(nodes)
      ensures faults >= old(faults) && (ok <==> faults == old(faults) && node !in seen)
      ensures ok ==> node !in seen && nodeLinks == seen[node := Object(Meta([], false, links), BLANK)]
      ensures !ok ==> nodeLinks == seen
    {
      Interfere();
      seen := nodeLinks;
      var fails := Fails();
      ok := !fails && node !in nodeLinks;
      if ok {
        nodeLinks := nodeLinks[node := Object(Meta([], false, links), BLANK)];
      }
    }
  }

  function Deleted(store: Store, node: string): Store {
    if node !in store then store
    else if store[node].meta.finalizers == [] then store - {node}
    else store[node := store[node].(meta := store[node].meta.(deleting := true))]
  }

  function Replaced(store: Store, node: string, meta: Meta<seq<string>>): Store
    requires node in store
  {
    var o := Object(meta, store[node].status);
    if Kept(o).None? then store - {node} else store[node := o]
  }
}
