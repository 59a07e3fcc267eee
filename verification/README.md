# Node network operator: a verified model

The operator turns cluster-wide `Link` resources (bridges, VXLANs, and "unmanaged" links that exist anyway) into network
interfaces on nodes. A cluster controller fans each `Link` out to one `NodeLinks` resource per matching node. An agent on
every node reconciles its `NodeLinks` with the interfaces of the node's kernel. An event watcher requests a reconcile when
an interface that the node's links refer to changes.

This project models those three parts, the link managers, the graph code and the patching of API objects, and proves what
they promise: convergence in one pass, failure isolation, no leaked interface and no lost membership over whole runs with
crashes, no lost wakeup, exact validation, and breadth-first search.

`dafny verify dfyconfig.toml` checks everything.

## How the system is modelled

| file | module | what it holds |
|---|---|---|
| `kernel.dfy` | `Kernel` | interfaces, one-field writes, the deletion cascade |
| `netlink.dfy` | `Netlink` | the netlink calls as methods of a class, each of which may fail without effect |
| `links.dfy` | `Wrappers`, `Links` | specs, references, the managers' checks; the desired state, stated independently |
| `managers.dfy` | `Managers` | the managers' upserts, call by call |
| `status.dfy` | `Status` | conditions and status of a `NodeLinks`, and their merge patch |
| `deletion.dfy` | `Deletion` | setting down and deleting in two phases |
| `graphs.dfy`, `graphsearch.dfy` | `Graphs`, `GraphSearch` | paths, cycles; breadth-first search |
| `linkgraph.dfy`, `validation.dfy` | `LinkGraph`, `Validation` | validation, graph construction, topological order |
| `missingdeps.dfy` | `MissingDependencies` | the check for missing required dependencies |
| `soundness.dfy`, `upsert.dfy` | `Soundness`, `UpsertPass` | the pass that upserts all links |
| `patch.dfy` | `Patch` | the API server's endpoint for one object, and the two-phase patch |
| `agent.dfy`, `outcomes.dfy`, `reconcile.dfy` | `Agent`, `Outcomes`, `Reconcile` | the node agent's reconcile, what it leaves behind, and its runs |
| `cluster.dfy`, `linkcontroller.dfy` | `Cluster`, `LinkController` | the cluster controller's reconcile, and its runs |
| `system.dfy` | `System` | the agent's reconcile after the cluster controller has let go of a Link |
| `linkevents.dfy` | `LinkEvents` | watcher, channel, queue and reconciler as a state machine |

Failures and crashes. Every netlink and API call may fail, and a failed call changes nothing. A crash is a reconcile in
which all calls from some point on fail, so a postcondition that holds however many calls fail holds after a crash at any
step; what a crash leaves in memory is discarded, as every reconcile starts from the stored object. The ghost counters
`faults` tell failures of the calls themselves apart from failures that have a reason in the configuration, so that
contracts can say "if no call failed, then the reconcile succeeds unless ...".

Ghost state. The kernel class records which interfaces the operator created and has neither deleted nor handed over to an
unmanaged link (`owned`), which names it ever acted on (`targets`), how many calls asked for a change (`writes`), and which
interfaces were read to be compared with what their links ask for (`seen`). An interface that an unmanaged link asks for is
handed over when the stored record drops its name, and not before (`pledged`). The cluster's API server records the
memberships that the controller's own delete and patch calls remove (`dropped`).

Interference. Before every API call others may do to a stored object whatever `Patch.OthersMay` allows, any number of
times (for the `NodeLinks` that the cluster controller reads: `Cluster.OthersTouch`); the relations are transitive. Between
two reconciles anything at all may happen to the kernel. The constant `calm` of an endpoint says that nobody interferes
with its object during a reconcile. The constant `calm` of the cluster says that the set of matching nodes stays as it is,
and that of the NodeLinks others write only what `Cluster.Peaceful` allows: agents write statuses, and the finalizers of
NodeLinks that are not being deleted, as they do while a Link is fanned out; nobody creates, deletes or edits a NodeLinks.
What is conditional on these constants could fail otherwise; what a controller's own writes do is stated without them.

Orders of iteration over maps are left open by the language. Validation and graph construction pick their elements in any
order, and the search gets the orders as a parameter of which its callers know nothing.

## Assumptions

- Managed interface names are not shared with unmanaged links, and unmanaged interfaces do not ride on managed ones:
  `Soundness.NoUnmanagedRides`. This is assumed of the Links that one NodeLinks lists when they are fetched, and of nothing
  else that the API serves: the parameter `listed` stands for them (`Agent.OnlyNamedLinksMatter`). Validation itself lets an
  unmanaged link share a name with a managed one (`internal/controller/nodelinks_controller.go:289-296`).
- Reads are linearizable, interfaces are not renamed, and nobody else touches the kernel during a reconcile.
- The remote address is IPv4 and the source port range is present, as the API's validation and defaults ensure.
- The node exists as long as its agent runs; then only the agent adds or removes its finalizer and writes the status.

## Where the code and its documentation differ

- `internal/controller/nodelinks_controller.go:126-131` announces that a link whose dependency failed the dependency check
  is set down as well. The code looks at direct required references only, and so does the model.
- `internal/graphsearch/bfs.go:9-11` says that the search stops when the visit function returns true. The code stops when
  it returns an error, and so does the model.
- `api/v1alpha1/link_types.go:40-46` promises that a link is brought down when a dependency, or any of its dependencies, is
  updated, if its reference says so. The code reads the flag of the one reference over which the search finds the link
  (`internal/controller/nodelinks_controller.go:676-679`), which is one of the nearest. `UpsertPass.SetDownExactly` says
  exactly what the flags achieve, `UpsertPass.SetDownCanBeSkipped` gives Links for which the promise fails.
- `api/v1alpha1/link_types.go:44-46` also promises that a link that was brought down comes up again once all dependencies
  are in their desired states, and `api/v1alpha1/link_types.go:31-33` that it is down while a required dependency is not
  ready. The code checks that required dependencies exist, and then brings every link up on its own turn.
  `UpsertPass.ComesUpDespiteDependency` gives the input: the write of a bridge's MTU fails, and the VXLAN enslaved to it
  comes up all the same. The exact condition is in `UpsertPass.UpsertLink`: if no call of its turn fails, a managed link
  whose required dependencies exist as Links is up and in its desired state if and only if the interfaces that it refers to
  exist and no other one has its VNID; whether these are in their desired state does not matter.
- `internal/controller/nodelinks_linkevents.go:63-69` wants every change of an interface that the node's Links refer to
  repaired or at least noticed as it happens. For an unmanaged link the only read of a reconcile is that of its operational
  condition, and a reconcile in which that read fails still succeeds (`internal/controller/nodelinks_controller.go:832-838`).
  `LinkEvents.UnmanagedChangeCanBeLost` is a run in which such a change is lost, `LinkEvents.NoLostWakeup` the exact
  condition; for managed links no change is ever lost (`LinkEvents.NoLostWakeupIfManaged`).
- The check and the action do not quite agree. `IsUpsertNeeded` compares the group address with an equality that
  identifies the 4-byte and the 16-byte form of an IPv4 address (`internal/links/vxlan.go:74`), while `forceReplace` looks
  at the length (`internal/links/vxlan.go:229-234`). For an adopted VXLAN whose group the kernel reports in 16 bytes the
  check is satisfied, and yet `Upsert` would replace the interface. `Links.CheckAndReplaceCanDisagree` gives the input,
  `Links.CheckAndReplaceAgreeIff` and `Managers.Upsert` the exact condition. The reconciler never calls `Upsert` when the
  check is satisfied, so convergence and quiescence hold without exception.

## Model

| member | source | states |
|---|---|---|
| `Kernel.DoomedIsLeast` | api/v1alpha1/link_types.go:108-113 | what a deletion takes along is the least set with the deleted names and every VXLAN riding on a member |
| `Kernel.DeleteInTwoSteps` | internal/controller/nodelinks_controller.go:750-768 | deleting one set of interfaces and then another leaves the same kernel as deleting both at once, whatever the first cascade took along |
| `Kernel.ClosedIsSpared` | api/v1alpha1/link_types.go:108-113 | a set of interfaces that ride only on each other survives any deletion of others |
| `Netlink.RebuildTouchesExactlyRiders` | internal/links/linkmanager.go:107-112 | replacing an interface removes exactly the others that rode on it, and changes exactly those enslaved to something removed |
| `Netlink.KeepsTouched` | internal/links/linkmanager.go:93-129 | however far an upsert got, every self-contained set of other interfaces is intact, up to masters outside the set |
| `Netlink.Netlink.LinkAdd` | api/v1alpha1/link_types.go:81-85 | creates an interface with a new index exactly if the call does not fail, the name is free and no other VXLAN has the VNID |
| `Links.IPEqualMeaning` | internal/links/vxlan.go:74-76 | an address equals a parsed IPv4 address exactly if it is its 4-byte or its 16-byte form |
| `Links.RefCheckMeaning` | internal/links/linkmanager.go:42-80 | a reference needs no update exactly if the index is that of the named interface, or 0 for one unset or optional and absent |
| `Links.CheckMeansDesired` | internal/links/vxlan.go:40-109 | for every kind of link, the check asks for no upsert exactly if the interface is up and matches the spec in every field |
| `Links.CheckAndReplaceAgreeIff` | internal/links/vxlan.go:194-238 | when the check is satisfied, the replace predicate holds exactly for a VXLAN whose group is kept in 16 bytes |
| `Links.CheckAndReplaceCanDisagree` | internal/links/vxlan.go:229-234 | such an interface, for which the check is satisfied and the replace predicate holds |
| `Managers.BasicUpsertWithCheck` | internal/links/linkmanager.go:93-129 | an interface that need not be replaced is left alone; else success means a new interface with a new index and the wanted parameters; failure means that a call failed or that another VXLAN has the VNID |
| `Managers.DesiredIndex` | internal/links/linkmanager.go:133-156 | the index found meets the reference; none is found only if a call failed or the reference dangles; a reference already met keeps its index |
| `Managers.SetReference` | internal/links/vxlan.go:138-151 | on success the master or device meets its reference, no other field changes, and nothing is written if it already did |
| `Managers.UpsertBridge` | internal/links/bridge.go:61-88 | success gives the desired state; a bridge is kept in place; only a failed call makes it fail, and then nothing is brought up; a desired bridge is unchanged |
| `Managers.UpsertVxlan` | internal/links/vxlan.go:111-188 | success gives the desired state, in place exactly if the replace predicate allows; without a failed call it fails only for a dangling reference or a VNID in use; a failure brings nothing up; the group is written only once the device is right; a desired VXLAN with a 4-byte group is unchanged |
| `Managers.CheckUpsertNeeded` | internal/links/vxlan.go:40-50 | the check fails if the kernel cannot be read, and else is the decision on what is there; an unmanaged link is not read |
| `Managers.Upsert` | internal/links/linkmanager.go:19-20 | after success the check is satisfied; when the check was satisfied before, a successful upsert leaves the kernel alone if and only if the link is not a VXLAN with a 16-byte group |
| `Status.MergeStatusIsExact` | api/v1alpha1/nodelinks_types.go:33-51 | a status merge patch applied to what it was computed from gives exactly the status asked for, conditions removed included |
| `Deletion.BringDownLink` | internal/controller/nodelinks_controller.go:858-884 | on success the interface is down if it exists, and its condition says so; nothing else in the kernel changed |
| `Deletion.DeleteLink` | internal/controller/nodelinks_controller.go:888-907 | on success the interface and what rode on it are gone; an absent one is fine |
| `Deletion.BringDownAll` | internal/controller/nodelinks_controller.go:715-748 | the kernel is as after setting down exactly the names `done`, all if no call failed; a failure does not stop the others: the names not done are no more than the failed calls; every name is reported as not ready |
| `Deletion.DeleteAll` | internal/controller/nodelinks_controller.go:750-779 | the kernel is as after deleting at once exactly the names `done`, all if no call failed; the names not done are no more than the failed calls, and are reported as not ready |
| `Deletion.DeleteLinks` | internal/controller/nodelinks_controller.go:713-782 | nothing is deleted unless every name was set down; success leaves the kernel as deleting name after name would, with none of the names and none of their conditions left; what could not be deleted is reported as not ready |
| `Deletion.DeleteEachIsAtOnce` | internal/controller/nodelinks_controller.go:751-768 | deleting the names one after the other, through the cascades, is deleting them at once |
| `Deletion.DeletionOrderDoesNotMatter` | internal/controller/nodelinks_controller.go:136-137 | any two permutations of the names leave the same kernel, without any of the names |
| `GraphSearch.BFSWithEdge` | internal/graphsearch/bfs.go:16-57 | fails at once if the start is no vertex; else makes exactly the visits of the search with the given orders of iteration, from the first on and all unless one fails, and then to exactly the reachable vertices; a visit error is the last visit |
| `GraphSearch.Expand` | internal/graphsearch/bfs.go:48-53 | queues the successors not found before, in the order of iteration |
| `GraphSearch.SearchInTurn` | internal/graphsearch/bfs.go:36-54 | the search visits distinct vertices from the start on; each is found by the earliest visited vertex that has an edge to it, and they come in the order of those that found them, siblings in the order of iteration; no successor is left out |
| `GraphSearch.SearchIsTheOnly` | internal/graphsearch/bfs.go:36-54 | these properties determine the search: no other sequence of visits has them |
| `GraphSearch.SearchIsNearestFirst` | internal/graphsearch/bfs.go:36-54 | visits come in order of shortest distance, each over a real edge from a vertex that is one step closer |
| `GraphSearch.VisitedSoFar` | internal/graphsearch/bfs.go:40-46 | all that also holds of the visits of a search that an error stops |
| `GraphSearch.NoShorterPath` | internal/graphsearch/bfs.go:39-54 | no path to a visited vertex is shorter than the number of edges over which it was found |
| `GraphSearch.AllFound` | internal/graphsearch/bfs.go:39-56 | the vertices visited by a whole search are exactly the reachable ones |
| `GraphSearch.AnyNearestEdge` | internal/graphsearch/bfs.go:48-53 | every edge from a vertex one step closer is the one over which the search finds its target, with some orders of iteration |
| `LinkGraph.Graph.AddVertex` | internal/controller/nodelinks_controller.go:366-371 | adds an isolated vertex, refuses one that exists, and keeps the graph acyclic |
| `LinkGraph.Graph.AddEdge` | internal/controller/nodelinks_controller.go:364-405 | adds the edge with its reference exactly if both ends exist, it is new and it closes no cycle; refuses without effect otherwise |
| `LinkGraph.Graph.TopologicalSort` | internal/controller/nodelinks_controller.go:414-416 | succeeds exactly on acyclic graphs, with every vertex once and after all its predecessors |
| `LinkGraph.ReachableIsLater` | internal/controller/nodelinks_controller.go:412-416 | in a topological order, every transitive dependent comes after its dependency |
| `LinkGraph.OrderedIsAcyclic` | internal/controller/nodelinks_controller.go:412-416 | a graph that has a topological order has no cycle |
| `LinkGraph.BuildDesiredLinkGraph` | internal/controller/nodelinks_controller.go:359-410 | in any iteration order, succeeds exactly if every link has a kind, no link references the same present link twice and the dependencies are acyclic; the graph then has exactly the present dependencies as edges |
| `LinkGraph.AddDependencies` | internal/controller/nodelinks_controller.go:385-406 | adds exactly the edges from one link's present dependencies, or shows why there can be no graph |
| `Validation.ValidateLink` | internal/controller/nodelinks_controller.go:280-334 | one link is found valid exactly if it has a kind, does not reference itself and its managed name is not taken, and its condition says so |
| `Validation.ValidateLinks` | internal/controller/nodelinks_controller.go:276-351 | in any iteration order, succeeds exactly if managed names are distinct, every link has a kind and none references itself; each ValidConfiguration condition is the verdict on the link, and False for a contested name |
| `Validation.PlanLinks` | internal/controller/nodelinks_controller.go:165-189 | validation, graph and order together succeed exactly for acceptable links, with exactly the desired graph and a topological order of all links |
| `MissingDependencies.CheckDependencies` | internal/controller/nodelinks_controller.go:424-505 | a link that misses a required reference is set down, and the condition says so, exactly then |
| `MissingDependencies.UpdateDependentsMissingDependencies` | internal/controller/nodelinks_controller.go:421-533 | without a failed call exactly the links that miss a required reference are set down, and the condition is False exactly for them; a failure does not stop the others: those left out are no more than the failed calls |
| `Soundness.ExternalIsClosed` | internal/controller/nodelinks_controller.go:694-698 | what no managed interface carries is self-contained, holds all unmanaged interfaces and no managed one |
| `Soundness.SoundKeeps` | internal/controller/nodelinks_controller.go:539-546 | work on other names leaves links in their desired state, as long as their dependencies are good too |
| `UpsertPass.BringDownDependents` | internal/controller/nodelinks_controller.go:656-706 | on success exactly the dependents that the search finds over a reference that asks for it are down or absent: every one all of whose nearest references ask for it, and only ones with such a reference |
| `UpsertPass.SetDownExactly` | internal/controller/nodelinks_controller.go:656-706 | the search finds a dependent over a reference that asks for the set-down in all orders of iteration if and only if all its nearest references ask for it, and in some orders if and only if one does |
| `UpsertPass.DirectReferenceDecides` | internal/controller/nodelinks_controller.go:676-679 | a reference to the changed link itself decides whether a dependent is set down, whatever its other references ask for |
| `UpsertPass.SetDownCanBeSkipped` | api/v1alpha1/link_types.go:40-46 | Links that the agent accepts, in which a reference asks for the set-down on a change that its dependency depends on, and no order of iteration sets the link down |
| `UpsertPass.ComesUpDespiteDependency` | api/v1alpha1/link_types.go:40-46 | a pass in which a link is set down with its dependency's turn, the dependency never gets to its desired state, and the link is up at the end, in its own |
| `UpsertPass.SetDownAndUpsert` | internal/controller/nodelinks_controller.go:606-633 | upserts only after the dependents were set down; success gives the desired state; without a failed call it fails only for a dangling reference or a VNID in use |
| `UpsertPass.UpsertIfNeeded` | internal/controller/nodelinks_controller.go:592-639 | an unmanaged link or one in its desired state is left alone, and not a write is made; a managed link that succeeds was read; without a failed call it fails only for a dangling reference or a VNID in use |
| `UpsertPass.UpsertLink` | internal/controller/nodelinks_controller.go:564-652 | a link whose required dependencies are not known to exist is left alone, and so is one in its desired state; success means the desired state, whatever became of its dependencies; without a failed call a managed link succeeds if and only if the interfaces it refers to exist and no other has its VNID; the Ready condition is the outcome |
| `UpsertPass.SoundStep` | internal/controller/nodelinks_controller.go:606-633 | the turn of a later link, with its set-downs and cascades, leaves every good earlier link in its desired state |
| `UpsertPass.SetDownStep` | internal/controller/nodelinks_controller.go:635-636 | dependents set down for an earlier link stay down or absent through the turns of others until their own |
| `UpsertPass.MissingStep` | internal/controller/nodelinks_controller.go:574-590 | a turn leaves links that miss a required dependency down |
| `UpsertPass.ReportedStep` | internal/controller/nodelinks_controller.go:595-647 | one more turn keeps the Ready conditions True exactly for the links that did not fail |
| `UpsertPass.FailureExplained` | internal/controller/nodelinks_controller.go:588-633 | a link that fails although no netlink call failed depends on a link that misses a required dependency, on an unmanaged interface that does not exist, or on a VXLAN whose VNID is taken |
| `UpsertPass.VnidsStep` | api/v1alpha1/link_types.go:81-85 | through every turn, each VXLAN has the VNID it began with or the one that a link of its name asks for |
| `UpsertPass.SettledStep` | internal/controller/nodelinks_controller.go:606-633 | after a turn without failed calls a managed link that misses no dependency has no interface with a VNID other than its own, even if the turn failed; later turns keep it so |
| `UpsertPass.VnidTakenExactly` | api/v1alpha1/link_types.go:81-85 | once that holds for all links, a VNID is taken exactly if two links ask for it or an interface that no managed link claims has it |
| `UpsertPass.TakeTurn` | internal/controller/nodelinks_controller.go:540-546 | one turn extends the history of the pass and what is proved about its outcome |
| `UpsertPass.UpsertLinks` | internal/controller/nodelinks_controller.go:539-561 | every link that no failed link taints is in its desired state at the end, so all are if none failed; set-down safety over all turns; missing links stay down; failures are explained; the Ready conditions are True exactly for the links that did not fail; every managed interface whose link did not fail was read; only managed names are acted on; nothing is written if everything was in its desired state |
| `Patch.Endpoint.PatchMain` | internal/controller/nodelinks_controller.go:971-975 | the main endpoint merges metadata and spec, ignores the status and answers with the stored one; refuses new finalizers during deletion; the object goes with its last finalizer |
| `Patch.Endpoint.PatchStatus` | internal/controller/nodelinks_controller.go:982-990 | the status endpoint merges the status and ignores the rest |
| `Patch.PatchResource` | internal/controller/nodelinks_controller.go:960-997 | patches what changed, metadata first; afterwards copy and object share no storage; without a failed call it fails only if the object is gone or the server refuses the patch |
| `Patch.Filtered` | internal/controller/link_controller.go:227-229 | removes exactly the given name, keeps the list free of duplicates, and is shorter exactly if the name was there |
| `Patch.PatchAgrees` | internal/controller/nodelinks_controller.go:960-997 | undisturbed, on success the server, the copy and memory agree on metadata and status, unless the object went with its last finalizer; the status in memory is always the one asked for |
| `Patch.RetryCompletes` | internal/controller/nodelinks_controller.go:970-976 | if only the first phase succeeded, a retry that succeeds completes the rest and does not repeat the first |
| `Patch.OthersMayTransitive` | internal/controller/nodelinks_controller.go:971-982 | however many times others act between two calls, together they did no more than the interference allowed for |
| `Patch.PatchStaysInStep` | internal/controller/link_controller.go:351-388 | disturbed, the copy still knows whether the stored object has the controller's finalizer and with what status; a guarded object ends with its old status or the one asked for |
| `Agent.PatchInventsNoRecord` | internal/controller/nodelinks_controller.go:798-800 | whatever a patch leaves as the recorded interfaces was recorded before, or asked for |
| `Agent.NodeLinksPatched` | internal/controller/nodelinks_controller.go:960-997 | a patch of the NodeLinks keeps the copy in step, leaves the old status or the one asked for behind the finalizer, and invents no record; undisturbed, it leaves what was asked for unless the server must refuse it |
| `Agent.OnlyNamedLinksMatter` | internal/controller/nodelinks_controller.go:258-269 | which Links are fetched, and whether all can be, depends on the Links of the listed names alone |
| `Agent.Without` | internal/controller/nodelinks_controller.go:816-824 | the recorded names that no link asks for, managed or not |
| `Agent.NoRidesAfterDeletion` | internal/controller/nodelinks_controller.go:708-711 | deleting recorded interfaces lets no unmanaged interface ride on a managed one |
| `Agent.NoRidesAfterWork` | internal/controller/nodelinks_controller.go:539-561 | nor does the upsert pass |
| `Reconcile.NodeLinksReconciler.PatchNodeLinks` | internal/controller/nodelinks_controller.go:960-997 | keeps the agent's invariants however it ends; hands over exactly the pledged interfaces that the stored record no longer names; once the stored object carries the finalizer, only a failed call makes it fail; undisturbed, it leaves on the server what was asked for |
| `Reconcile.NodeLinksReconciler.GetLinkResources` | internal/controller/nodelinks_controller.go:258-269 | fetches exactly the named Links, and fails exactly if a call fails or a Link does not exist |
| `Reconcile.NodeLinksReconciler.SetDownMissing` | internal/controller/nodelinks_controller.go:191-193 | within a reconcile: afterwards every link that misses a required dependency is down, not ready and marked, and all others are marked as available; no write is made if none misses one |
| `Reconcile.NodeLinksReconciler.DeleteUndesired` | internal/controller/nodelinks_controller.go:709-711 | deletes the recorded interfaces that no link asks for, and acts on no other name |
| `Reconcile.NodeLinksReconciler.ManagedNameList` | internal/controller/nodelinks_controller.go:785-797 | exactly the managed names, each once |
| `Reconcile.NodeLinksReconciler.AddFinalizer` | internal/controller/nodelinks_controller.go:113-124 | on success the stored NodeLinks carries the finalizer; undisturbed, only a failed call makes it fail, and no other finalizer changes |
| `Reconcile.NodeLinksReconciler.UpdateLastAttempted` | internal/controller/nodelinks_controller.go:784-813 | on success exactly the managed names are stored behind the finalizer; everything owned is recorded whether or not it succeeds, and interfaces that unmanaged links ask for are handed over with the stored record, not before |
| `Reconcile.NodeLinksReconciler.UpsertAll` | internal/controller/nodelinks_controller.go:211-213 | the links that depend on no failed one are in their desired state; the conditions show which failed, and the verdicts on dependencies; without a failed netlink call only links that depend on a missing dependency, an absent unmanaged interface or a taken VNID fail, and all others are in their desired state |
| `Reconcile.NodeLinksReconciler.HandleUpsert` | internal/controller/nodelinks_controller.go:109-227 | success means convergence with the record in place, every managed interface read, and nothing left of recorded interfaces that no link asks for; whenever the links were upserted, failures are isolated and, without failed netlink calls, have a reason; the status, stored if no API call failed, tells outcome and verdicts; links that cannot be accepted or are as desired cause not a single write; missing links are down at the end; no unmanaged name is acted on |
| `Reconcile.NodeLinksReconciler.HandleDeletion` | internal/controller/nodelinks_controller.go:229-256 | on success nothing is owned any more; unless a netlink call fails every recorded interface is gone; undisturbed, only a failed call makes it fail, and it drops its own finalizer and no other |
| `Reconcile.NodeLinksReconciler.Reconcile` | internal/controller/nodelinks_controller.go:87-107 | keeps the invariant of whole runs however it ends; on success converges, and rids the kernel of recorded interfaces that no link asks for; isolates failures, so that with a missing dependency all links that do not depend on it are in their desired state; the stored conditions carry verdicts and outcomes; without failed calls it fails only for an unattainable configuration |
| `Reconcile.NodeLinksReconciler.ReconcileTwice` | internal/controller/nodelinks_controller.go:592-639 | after a successful reconcile, another one that finds the same Links makes no write at all, even if it fails; and if distinct VNIDs are asked for, which only interfaces of managed links hold, and nothing is missing, the second of two reconciles without failed calls succeeds, even if the first could not because VNIDs were swapped |
| `Reconcile.NodeLinksReconciler.Run` | internal/controller/nodelinks_controller.go:784-824 | over any run: every owned interface is recorded in the stored NodeLinks behind the finalizer; none is left once that is gone; a name that no managed Link fetched for this node ever claimed was never acted on |
| `Outcomes.JustifiedMeansRestDesired` | internal/controller/nodelinks_controller.go:574-590 | if every failed link depends on one that could not succeed, all links that depend on no such link are in their desired state |
| `Outcomes.JustifiedByCulprits` | internal/controller/nodelinks_controller.go:539-561 | the reasons that the pass finds for its failures are reasons at the end of the reconcile too |
| `Outcomes.AttainableMeansNoFailure` | internal/controller/nodelinks_controller.go:539-561 | if no dependency is missing, no VNID is taken and the unmanaged interfaces exist, no link fails without a failed call |
| `Outcomes.NoVnidTaken` | internal/controller/nodelinks_controller.go:539-561 | if links ask for distinct VNIDs that only interfaces of managed links hold, and none misses a dependency, no VNID is taken any more once all links were upserted without a failed call |
| `Outcomes.ReportedMeansShown` | internal/controller/nodelinks_controller.go:595-647 | after the pass a link is Ready if and only if it did not fail |
| `Outcomes.StillJudged` | internal/controller/nodelinks_controller.go:308-334 | what follows the validation overwrites none of its verdicts |
| `Cluster.ApiServer.DeleteNodeLinks` | internal/controller/link_controller.go:233-235 | a delete request removes an object without finalizers and only marks another one; the memberships it costs are recorded as dropped |
| `Cluster.ApiServer.PatchNodeLinks` | internal/controller/link_controller.go:236-239 | a patch replaces a list that differs whole, and removes an object that is being deleted with its last finalizer; the memberships it costs are recorded as dropped |
| `Cluster.MeanwhileTransitive` | internal/controller/link_controller.go:233-239 | the same for what users, node agents and the garbage collector do to NodeLinks between two calls, in calm or not |
| `LinkController.LinkReconciler.RemoveFromFound` | internal/controller/link_controller.go:211-251 | afterwards the NodeLinks does not list the link; whatever others do meanwhile, its calls cost no membership of another Link, so that it is deleted only with its last entry; with only agents at work, the node leaves the record with the membership, and a node known to be gone loses the agent's finalizer |
| `LinkController.KeptDropsOnly` | internal/controller/link_controller.go:225-240 | a write that keeps other memberships of the store that it meets removes none but the link's, whatever interfered before it |
| `LinkController.LinkReconciler.RemoveFromUnmatchedNodeLinks` | internal/controller/link_controller.go:192-265 | only desired nodes and nodes that a failure left out still list the link; with only agents at work, those left out are no more than the failed calls; the record always covers all nodes that do, and no other membership is dropped |
| `LinkController.LinkReconciler.RegisterWithNodeLinks` | internal/controller/link_controller.go:287-316 | only for a recorded node; adds this membership and no other and drops none; with only agents at work, a NodeLinks that is being deleted is left as it is |
| `LinkController.LinkReconciler.RegisterWithMatchedNodeLinks` | internal/controller/link_controller.go:268-284 | the record is stored before any NodeLinks is touched, so that every membership is covered whatever fails |
| `LinkController.LinkReconciler.RegisterWithAll` | internal/controller/link_controller.go:279-283 | with only agents at work, every recorded node lists the link afterwards, but for NodeLinks that were being deleted and nodes left out by a failure, which are no more than the failed calls |
| `LinkController.LinkReconciler.UpdateNodeLinks` | internal/controller/link_controller.go:168-190 | on success, with only agents at work, exactly the matching nodes list the link, but for those whose NodeLinks was being deleted |
| `LinkController.LinkReconciler.PatchLink` | internal/controller/link_controller.go:351-388 | keeps the write-ahead invariant; drops the finalizer only when no live NodeLinks lists the link |
| `LinkController.LinkReconciler.HandleUpsert` | internal/controller/link_controller.go:86-121 | with only agents at work, success means exact fan-out without duplicates, but for NodeLinks that were being deleted, and an exact record, and other memberships are kept; whatever else interferes, its calls drop no other Link's membership; with only agents at work and the Link secured, only a failed call makes it fail; the stored Ready condition tells the outcome |
| `LinkController.LinkReconciler.HandleDeletion` | internal/controller/link_controller.go:123-164 | when the finalizer is gone no live NodeLinks lists the link; undisturbed, only a failed call makes it fail, and of the Link nothing but the outcome and the finalizers of others is left |
| `LinkController.LinkReconciler.Reconcile` | internal/controller/link_controller.go:63-84 | keeps the invariant however it ends; adds no other Link's membership, and its calls drop none, so that it deletes a NodeLinks only with its last entry; with only agents at work, none is lost at all, and success means exact fan-out; for a Link that is being deleted, success means that its finalizer is gone and no live NodeLinks lists it, whatever interferes |
| `LinkController.LinkReconciler.Run` | internal/controller/link_controller.go:271-284 | over any run: a live NodeLinks that lists the link is in its stored MatchedNodes, behind the finalizer; the controller's calls drop no membership but those of the link |
| `LinkController.ControllerRespectsAgent` | internal/controller/link_controller.go:225-240 | the cluster controller's writes are among the interference that the agent's proofs allow for |
| `LinkController.AgentRespectsController` | internal/controller/nodelinks_controller.go:960-997 | the agent's writes are among the interference that the cluster controller's proofs allow for; those on a NodeLinks that is not being deleted, and all of its status, do not even disturb the calm |
| `System.ReconcileAfterDeletion` | internal/controller/nodelinks_controller.go:87-107 | once a Link has lost its finalizer, a node's reconcile that succeeds works without it; of what the operator created there only interfaces that other Links of the node claim are left, and of what was recorded only those that other Links ask for |
| `LinkEvents.StepLosesNone` | internal/controller/nodelinks_linkevents.go:109-175 | every step of watcher, channel, queue, reconciler or environment keeps each unread change of a watched link covered, unless the last read of the link failed; only reads of unmanaged links can fail in a reconcile that goes on |
| `LinkEvents.RunLosesNone` | internal/controller/nodelinks_linkevents.go:89-105 | so does any run |
| `LinkEvents.NoLostWakeup` | internal/controller/nodelinks_linkevents.go:162-175 | in every reachable state, a change of a watched link that no later reconcile has read is covered by an event, a renewal of the subscription, a pending request, or a reconcile that will still read it, if and only if its last read did not fail or something is pending all the same |
| `LinkEvents.NoLostWakeupIfManaged` | internal/controller/nodelinks_linkevents.go:109-175 | the same, without exception, for links that are managed |
| `LinkEvents.FailedMeaning` | internal/controller/nodelinks_controller.go:832-838 | the last read of a name failed exactly if some read of it failed and since then it was neither read nor changed nor set to be read again |
| `LinkEvents.UnmanagedChangeCanBeLost` | internal/controller/nodelinks_controller.go:832-838 | a run to a state at rest in which a change of a watched unmanaged link was lost |
| `LinkEvents.RestMeansRead` | internal/controller/nodelinks_linkevents.go:63-69 | once everything is at rest with a healthy subscription, the watched links with an unread change are unmanaged ones whose last read failed |

## Left out

- Netlink message encoding and side effects of the kernel between fields, such as MTU clamping or the automatic MTU of a
  bridge: a setter writes its field, and the MTU of a new interface is arbitrary.
- Whether an interface has carrier is a free input of the operational condition.
- Reasons, messages and timestamps of conditions, logging and Kubernetes events: a condition is its type and status.
- Label selectors: the set of matching nodes is a free input, and a list call reads it. Owner references are not modelled.
- Informer caches, leader election, rate limits, the watcher's backoff and the periodic resync.
- Registration with a NodeLinks that is being deleted is skipped, and nothing in the cluster controller retries it later;
  membership is stated for NodeLinks without a deletion timestamp, and exact fan-out excepts those that are being deleted.
- The agent and the cluster controller are each proved against the other's writes as interference
  (`LinkController.ControllerRespectsAgent`, `LinkController.AgentRespectsController`), and `System.ReconcileAfterDeletion`
  puts what their runs keep together; their runs are not interleaved call by call in one system. The removal of the agent's
  finalizer for a node that is gone is not among those writes: no leak is claimed for a node that no longer exists.
- The graph library and the functions of the slice library are not part of this repository: `AddEdge`, `TopologicalSort`
  and the list helpers are small implementations of their contracts. The list difference is used on sets only.
- The visit function of the search is a predicate that says which visits fail: what a visit does cannot change the graph.
- Watcher, channel and queue are a labelled transition system rather than classes, since what matters is the interleaving.
- Composition of the protocol with the reconcile: `Reconcile.NodeLinksReconciler.HandleUpsert` proves of the reconcile what
  the protocol takes from it, that the names are swapped before the interfaces are read and that success means that every
  managed interface was read, and without a failed read every one; the two are not one system.
- Which interfaces collide: any two VXLANs with one VNID do, as the API's documentation says; ports and flags that the kernel
  also looks at are not modelled.
- Integers are unbounded: the API bounds every number well below the width of the fields.
- LinkController.LinkReconciler.HandleUpsert: exact fan-out requires that the matching nodes stay as they are and that
  nobody creates, deletes or edits a NodeLinks meanwhile; agents may write statuses and, unless a NodeLinks is being
  deleted, finalizers.
- LinkController.LinkReconciler.RemoveFromFound: that a gone node's agent finalizer is dropped requires the same during the
  call.
- Validation.ValidateLinks: conditions are kept by interface name, so the verdict on a link that shares its name with one that
  is not managed may be overwritten; the conditions of such links are excepted.
