/** The cluster controller and the agent of one node, with the NodeLinks between them. */
module System {
  import opened Wrappers
  import opened Links
  import opened Soundness
  import Agent
  import Cluster
  import LinkController
  import Outcomes
  import Reconcile

  /** The NodeLinks that the agent reads and writes is the one that the API server stores for its node. */
  ghost predicate Shared(controller: LinkController.LinkReconciler, agent: Reconcile.NodeLinksReconciler, node: string)
    reads controller.api, agent.api
  {
    agent.api.slot == LinkController.SlotOf(controller.api.nodeLinks, node)
  }

  /**
   * The end of a Link: once its finalizer is gone, as the controller's runs leave it, a reconcile of the node that
   * succeeds works without it. Of what the operator created there, only interfaces that other Links of the node claim
   * are left, and of what was recorded only those that other Links ask for; or nothing at all, once the NodeLinks is
   * being deleted or gone.
   */
  method ReconcileAfterDeletion(controller: LinkController.LinkReconciler, agent: Reconcile.NodeLinksReconciler,
                                node: string, listed: Links, ghost claimed: set<string>)
    returns (ok: bool, upsert: bool, fetched: Option<Links>)
    requires controller.Holds() && !controller.IsGuarded() && Shared(controller, agent, node)
    requires agent.Holds(claimed) && NoUnmanagedRides(agent.kernel.net, listed)
    modifies agent, agent.kernel, agent.api
    ensures agent.Holds(Reconcile.Claims(claimed, fetched))
    ensures upsert <==> old(Cluster.Live(controller.api.nodeLinks, node))
    ensures ok && !upsert ==> agent.kernel.owned == {}
    ensures ok && upsert ==> fetched.Some? && agent.kernel.owned <= ManagedNames(fetched.value)
    ensures ok && upsert ==> forall n :: n in old(agent.api.slot).value.status.lastAttempted ==>
      n in agent.kernel.net.ifaces ==> n in Agent.AllNames(fetched.value)
    ensures ok && upsert && old(agent.Upsertable()) ==> controller.name !in fetched.value
  {
    assert old(agent.Upsertable()) ==>
      controller.name !in controller.api.nodeLinks[node].meta.spec by {
      assert !Cluster.Lists(controller.api.nodeLinks, node, controller.name);
    }
    ghost var failed;
    ok, upsert, fetched, failed := agent.Reconcile(listed, claimed);
    if ok && upsert {
      forall n | n in old(agent.api.slot).value.status.lastAttempted && n in agent.kernel.net.ifaces
        ensures n in Agent.AllNames(fetched.value)
      {
        assert n !in Outcomes.Undesired(old(agent.api.slot).value.status, fetched.value);
      }
    }
  }
}
