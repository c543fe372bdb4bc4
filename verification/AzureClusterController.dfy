/** controllers/azurecluster_controller.go */
module AzureClusterController {
  import opened Types
  import opened ServiceSpec
  import opened ClusterObjects
  import opened AzureApi
  import opened Scopes
  import opened Service
  import opened ControllerSpec

  class ApiServer {
    var clusters: Clusters

    method Get(name: NamespacedName) returns (c: Option<AzureCluster>)
      ensures c == if name in clusters then Some(clusters[name]) else None
    {
      c := if name in clusters then Some(clusters[name]) else None;
    }

    /** One atomic write, which the server may refuse; a deleted object goes with its last finalizer. */
    method PatchObject(c: ClusterObject, stored: bool)
      requires c.Valid()
      modifies this
      ensures !stored ==> clusters == old(clusters)
      ensures stored && c.Value().deleting && c.finalizers == [] ==> clusters == old(clusters) - {c.Value().info.id}
      ensures stored && !(c.Value().deleting && c.finalizers == []) ==>
                clusters == old(clusters)[c.Value().info.id := c.Value()]
    {
      if stored {
        var value := c.Value();
        if value.deleting && value.finalizers == [] {
          clusters := clusters - {value.info.id};
        } else {
          clusters := clusters[value.info.id := value];
        }
      }
    }
  }

  method ValidateLBType(c: AzureCluster) returns (failure: Option<Error>)
    ensures failure == if KnownLBType(c.lbType) then None else Some(UnknownLoadBalancerType)
  {
    if c.lbType != Internal && c.lbType != Public {
      return Some(UnknownLoadBalancerType);
    }
    return None;
  }

  class Reconciler {
    const server: ApiServer
    const managementClusterName: NamespacedName

    constructor (server: ApiServer, managementClusterName: NamespacedName)
      ensures this.server == server && this.managementClusterName == managementClusterName
    {
      this.server := server;
      this.managementClusterName := managementClusterName;
    }

    method Reconcile(req: NamespacedName, input: RunInput) returns (outcome: Outcome)
      requires WellFormed(server.clusters)
      modifies server
      ensures (server.clusters, outcome) == ReconcileStep(old(server.clusters), managementClusterName, req, input)
    {
      var found := server.Get(req);
      if found.None? {
        return DONE;
      }
      var wc := found.value;
      if wc.info.id == managementClusterName {
        return DONE;
      }
      found := server.Get(managementClusterName);
      if found.None? {
        return Outcome(false, Some(ObjectNotFound));
      }
      var mc := found.value;
      var unknown := ValidateLBType(wc);
      if unknown.None? {
        unknown := ValidateLBType(mc);
      }
      if unknown.Some? {
        return Outcome(false, unknown);
      }
      var wcObject := new ClusterObject(wc);
      outcome := ReconcileLinks(mc, wcObject, input);
      server.PatchObject(wcObject, input.wcPatch);
      outcome := Closed(outcome, wc.info.id, input.wcPatch);
    }

    /** From the creation of the links scope on; its deferred close is the caller's last step. */
    method ReconcileLinks(mc: AzureCluster, wcObject: ClusterObject, input: RunInput) returns (outcome: Outcome)
      requires wcObject.Valid() && wcObject.Value() == wcObject.stored
      modifies server, wcObject, wcObject.endpoints, wcObject.endpoints.data
      ensures wcObject.Valid()
      ensures input.mcClient.Err? ==>
                outcome == Outcome(false, Some(input.mcClient.error)) && wcObject.Value() == wcObject.stored
                && server.clusters == old(server.clusters)
      ensures input.mcClient.Ok? && input.wcClient.Err? ==>
                outcome == Outcome(false, Some(input.wcClient.error)) && wcObject.Value() == wcObject.stored
                && server.clusters == old(server.clusters)
      ensures input.mcClient.Ok? && input.wcClient.Ok? && mc.subnets == [] ==>
                outcome == Outcome(false, Some(SubnetsNotSet)) && wcObject.Value() == wcObject.stored
                && server.clusters == old(server.clusters)
      ensures input.mcClient.Ok? && input.wcClient.Ok? && mc.subnets != [] ==>
                var e := if wcObject.stored.subnets == [] then Edited(mc, wcObject.stored, Some(SubnetsNotSet))
                         else Body(mc, wcObject.stored, input.mcClient.value, input.wcClient.value);
                && wcObject.Value() == e.wc
                && server.clusters == Patched(old(server.clusters), e.mc, input.mcPatch)
                && outcome == Closed(Finished(e.failure), mc.info.id, input.mcPatch)
    {
      if input.mcClient.Err? {
        return Outcome(false, Some(input.mcClient.error));
      }
      if input.wcClient.Err? {
        return Outcome(false, Some(input.wcClient.error));
      }
      var chosen := ChooseSubnet(mc.subnets);
      if chosen.Err? {
        return Outcome(false, Some(chosen.error));
      }
      var mcObject := new ClusterObject(mc);
      var failure := ReconcileEndpoints(mcObject, wcObject, input.mcClient.value, input.wcClient.value);
      server.PatchObject(mcObject, input.mcPatch);
      outcome := Closed(Finished(failure), mc.info.id, input.mcPatch);
    }

    method ReconcileEndpoints(mcObject: ClusterObject, wcObject: ClusterObject, mcClient: Client, wcClient: Client)
      returns (failure: Option<Error>)
      requires mcObject.Valid() && wcObject.Valid() && mcObject.Value() == mcObject.stored
               && wcObject.Value() == wcObject.stored
      requires mcObject != wcObject && mcObject.endpoints != wcObject.endpoints
               && mcObject.endpoints.data != wcObject.endpoints.data
      requires mcObject.stored.subnets != []
      modifies mcObject.endpoints, mcObject.endpoints.data, wcObject, wcObject.endpoints, wcObject.endpoints.data
      ensures mcObject.Valid() && wcObject.Valid()
      ensures Edited(mcObject.Value(), wcObject.Value(), failure)
           == if wcObject.stored.subnets == [] then Edited(mcObject.stored, wcObject.stored, Some(SubnetsNotSet))
              else Body(mcObject.stored, wcObject.stored, mcClient, wcClient)
    {
      var mc, wc := mcObject.stored, wcObject.stored;
      var chosen := ChooseSubnet(wc.subnets);
      if chosen.Err? {
        return Some(chosen.error);
      }
      if !wc.deleting {
        failure := ReconcileLive(mcObject, wcObject, mcClient, wcClient);
      } else {
        ReconcileDelete(mcObject, wcObject, mcClient);
        failure := None;
      }
    }

    method ReconcileLive(mcObject: ClusterObject, wcObject: ClusterObject, mcClient: Client, wcClient: Client)
      returns (failure: Option<Error>)
      requires mcObject.Valid() && wcObject.Valid() && mcObject.Value() == mcObject.stored
               && wcObject.Value() == wcObject.stored
      requires mcObject != wcObject && mcObject.endpoints != wcObject.endpoints
               && mcObject.endpoints.data != wcObject.endpoints.data
      requires mcObject.stored.subnets != [] && wcObject.stored.subnets != []
      modifies mcObject.endpoints, mcObject.endpoints.data, wcObject, wcObject.endpoints, wcObject.endpoints.data
      ensures mcObject.Valid() && wcObject.Valid()
      ensures Edited(mcObject.Value(), wcObject.Value(), failure)
           == Live(mcObject.stored, wcObject.stored, OracleOf(mcClient, mcObject.stored.info.resourceGroup),
                   OracleOf(wcClient, wcObject.stored.info.resourceGroup))
    {
      ObjectIsStored(mcObject);
      ObjectIsStored(wcObject);
      var links := new LinksScope(wcObject);
      wcObject.SetFinalizer(AZURE_CLUSTER_FINALIZER);
      failure := EnsureMcToWc(mcObject, links, mcClient);
      if failure.None? {
        failure := EnsureWcToMc(mcObject.stored, links, wcClient);
      }
    }

    method EnsureMcToWc(mcObject: ClusterObject, links: LinksScope, client: Client) returns (failure: Option<Error>)
      requires mcObject.Valid() && mcObject != links.wc && links.privateLinks == links.wc.stored.privateLinks
      requires mcObject.endpoints.Contents() == EndpointsOf(mcObject.stored)
      requires links.wc.annotations == links.wc.stored.annotations && links.wc.conditions == links.wc.stored.conditions
      modifies mcObject.endpoints, mcObject.endpoints.data, links.wc`annotations
      ensures mcObject.Valid()
              && (mcObject.endpoints.data == old(mcObject.endpoints.data) || fresh(mcObject.endpoints.data))
      ensures Ensured(mcObject.endpoints.Contents(), links.wc.annotations, failure)
           == McToWc(mcObject.stored, links.wc.stored, OracleOf(client, mcObject.stored.info.resourceGroup))
    {
      failure := None;
      if links.wc.stored.lbType == Internal {
        var endpointsScope := new EndpointsScope(mcObject.stored.info, mcObject.endpoints, client);
        var service := new EndpointsService(endpointsScope, links);
        failure := service.ReconcileMcToWcApi();
      }
    }

    method EnsureWcToMc(mc: AzureCluster, links: LinksScope, client: Client) returns (failure: Option<Error>)
      requires links.wc.Valid() && links.wc.endpoints.Contents() == EndpointsOf(links.wc.stored)
      requires links.wc.conditions == links.wc.stored.conditions
      modifies links.wc`annotations, links.wc`conditions, links.wc.endpoints, links.wc.endpoints.data
      ensures links.wc.Valid()
      ensures Ingress(Ensured(links.wc.endpoints.Contents(), links.wc.annotations, failure), links.wc.conditions)
           == WcToMc(mc, links.wc.stored, OracleOf(client, links.wc.stored.info.resourceGroup),
                     old(links.wc.annotations))
    {
      failure := None;
      if mc.lbType == Internal {
        var endpointsScope := new EndpointsScope(links.wc.stored.info, links.wc.endpoints, client);
        var service := new EndpointsService(endpointsScope, links);
        failure := service.ReconcileWcToMcIngress([GatewaySpec(links.wc.stored.info, mc.info)]);
      }
    }

    method RemoveMcToWc(mcObject: ClusterObject, wcObject: ClusterObject, client: Client)
      requires mcObject.Valid() && mcObject.endpoints.Contents() == EndpointsOf(mcObject.stored)
      modifies mcObject.endpoints`length, mcObject.endpoints.data
      ensures mcObject.Valid()
      ensures mcObject.endpoints.Contents()
           == DeleteMcToWcApi(SiteOf(mcObject.stored, wcObject.stored), EndpointsOf(mcObject.stored))
    {
      var links := new LinksScope(wcObject);
      var endpointsScope := new EndpointsScope(mcObject.stored.info, mcObject.endpoints, client);
      var service := new EndpointsService(endpointsScope, links);
      service.DeleteMcToWcApi();
    }

    method ReconcileDelete(mcObject: ClusterObject, wcObject: ClusterObject, mcClient: Client)
      requires mcObject.Valid() && wcObject.Valid() && mcObject.Value() == mcObject.stored
               && wcObject.Value() == wcObject.stored
      requires mcObject != wcObject && mcObject.endpoints != wcObject.endpoints
               && mcObject.endpoints.data != wcObject.endpoints.data
      requires mcObject.stored.subnets != []
      modifies mcObject.endpoints, mcObject.endpoints.data, wcObject
      ensures mcObject.Valid() && wcObject.Valid()
      ensures mcObject.Value() == Deleting(mcObject.stored, wcObject.stored).mc
      ensures wcObject.Value() == Deleting(mcObject.stored, wcObject.stored).wc
    {
      ObjectIsStored(mcObject);
      ObjectIsStored(wcObject);
      if wcObject.stored.lbType == Internal {
        RemoveMcToWc(mcObject, wcObject, mcClient);
      }
      wcObject.RemoveFinalizer(AZURE_CLUSTER_FINALIZER);
    }
  }

  lemma ObjectIsStored(o: ClusterObject)
    requires o.Valid() && o.Value() == o.stored
    ensures o.annotations == o.stored.annotations && o.conditions == o.stored.conditions
            && o.finalizers == o.stored.finalizers
    ensures o.endpoints.Contents() == EndpointsOf(o.stored) || o.stored.subnets == []
    ensures WithEndpoints(o.stored, EndpointsOf(o.stored)) == o.stored
  {
    ReadBack(o.stored, o.endpoints.Contents());
    if o.stored.subnets != [] {
      assert EndpointsOf(WithEndpoints(o.stored, o.endpoints.Contents())) == o.endpoints.Contents();
      assert o.Value().subnets == WithEndpoints(o.stored, o.endpoints.Contents()).subnets;
    }
  }
}
