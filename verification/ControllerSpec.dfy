/** What one run of the AzureCluster controller does to the stored clusters, as a function. */
module ControllerSpec {
  import opened Types
  import opened Conditions
  import opened ServiceSpec
  import opened ClusterObjects
  import opened AzureApi
  import ResourceIds

  type Clusters = map<NamespacedName, AzureCluster>

  ghost predicate WellFormed(clusters: Clusters) {
    forall n :: n in clusters ==> clusters[n].info.id == n
  }

  /** What a run meets outside the stored clusters: the Azure clients or the error of creating them, and
      whether each of the two patches gets stored. */
  datatype RunInput = RunInput(
    mcClient: Result<Client, Error>,
    wcClient: Result<Client, Error>,
    mcPatch: bool,
    wcPatch: bool)

  datatype Outcome = Outcome(requeue: bool, error: Option<Error>)

  const DONE := Outcome(false, None)

  predicate KnownLBType(t: LBType) {
    t.Internal? || t.Public?
  }

  function SiteOf(mc: AzureCluster, wc: AzureCluster): Site {
    Site(mc.info, wc.info, wc.privateLinks)
  }

  function GatewaySpec(wc: ClusterInfo, mc: ClusterInfo): PrivateEndpointSpec {
    PrivateEndpointSpec(
      wc.id.name + "-to-" + mc.id.name + "-gateway-privateendpoint",
      wc.location,
      [PrivateLinkServiceConnection(
         wc.id.name + "-to-" + mc.id.name + "-gateway-connection",
         ResourceIds.LinkID(mc.subscriptionID, mc.id.name, mc.id.name + "-gateway-privatelink"),
         "")],
      false)
  }

  /** The two objects after the body of a run, before they are patched, and the error it ended with. */
  datatype Edited = Edited(mc: AzureCluster, wc: AzureCluster, failure: Option<Error>)

  function McToWc(mc: AzureCluster, wc: AzureCluster, ip: IpOracle): Ensured {
    if wc.lbType.Internal?
    then ReconcileMcToWcApi(SiteOf(mc, wc), IsTrue(wc.conditions, PRIVATE_LINKS_READY), ip, EndpointsOf(mc),
                            wc.annotations)
    else Ensured(EndpointsOf(mc), wc.annotations, None)
  }

  function WcToMc(mc: AzureCluster, wc: AzureCluster, ip: IpOracle, annotations: map<string, string>): Ingress {
    if mc.lbType.Internal?
    then ReconcileWcToMcIngress([GatewaySpec(wc.info, mc.info)], ip, EndpointsOf(wc), annotations, wc.conditions)
    else Ingress(Ensured(EndpointsOf(wc), annotations, None), wc.conditions)
  }

  function Live(mc: AzureCluster, wc: AzureCluster, mcIp: IpOracle, wcIp: IpOracle): Edited {
    var api := McToWc(mc, wc, mcIp);
    var ingress :=
      if api.failure.Some? then Ingress(Ensured(EndpointsOf(wc), api.annotations, api.failure), wc.conditions)
      else WcToMc(mc, wc, wcIp, api.annotations);
    Edited(
      WithEndpoints(mc, api.list),
      WithEndpoints(wc, ingress.ensured.list).(
        annotations := ingress.ensured.annotations,
        conditions := ingress.conditions,
        finalizers := WithFinalizer(wc.finalizers, AZURE_CLUSTER_FINALIZER)),
      ingress.ensured.failure)
  }

  function Deleting(mc: AzureCluster, wc: AzureCluster): Edited {
    Edited(
      if wc.lbType.Internal? then WithEndpoints(mc, DeleteMcToWcApi(SiteOf(mc, wc), EndpointsOf(mc))) else mc,
      wc.(finalizers := WithoutFinalizer(wc.finalizers, AZURE_CLUSTER_FINALIZER)),
      None)
  }

  /** A stored patch of a deleted object without finalizers removes the object. */
  function Patched(clusters: Clusters, c: AzureCluster, stored: bool): Clusters {
    if !stored then clusters
    else if c.deleting && c.finalizers == [] then clusters - {c.info.id}
    else clusters[c.info.id := c]
  }

  /** The error of a deferred close counts only if the run had none so far. */
  function Closed(outcome: Outcome, of: NamespacedName, stored: bool): Outcome {
    if !stored && outcome.error.None? then outcome.(error := Some(PatchFailure(of))) else outcome
  }

  function Finished(failure: Option<Error>): Outcome {
    if failure.Some? && IsRetriable(failure.value) then Outcome(true, None) else Outcome(false, failure)
  }

  /** The run proper: both objects are patched when it ends, the management cluster first. */
  function Body(mc: AzureCluster, wc: AzureCluster, mcClient: Client, wcClient: Client): Edited {
    if wc.deleting then Deleting(mc, wc)
    else Live(mc, wc, OracleOf(mcClient, mc.info.resourceGroup), OracleOf(wcClient, wc.info.resourceGroup))
  }

  function ReconcileStep(clusters: Clusters, mcName: NamespacedName, req: NamespacedName, input: RunInput)
    : (Clusters, Outcome)
  {
    if req !in clusters || req == mcName then (clusters, DONE)
    else if mcName !in clusters then (clusters, Outcome(false, Some(ObjectNotFound)))
    else
      var wc, mc := clusters[req], clusters[mcName];
      if !KnownLBType(wc.lbType) || !KnownLBType(mc.lbType) then
        (clusters, Outcome(false, Some(UnknownLoadBalancerType)))
      else if input.mcClient.Err? then
        (Patched(clusters, wc, input.wcPatch), Outcome(false, Some(input.mcClient.error)))
      else if input.wcClient.Err? then
        (Patched(clusters, wc, input.wcPatch), Outcome(false, Some(input.wcClient.error)))
      else if mc.subnets == [] then
        (Patched(clusters, wc, input.wcPatch), Outcome(false, Some(SubnetsNotSet)))
      else if wc.subnets == [] then
        (Patched(Patched(clusters, mc, input.mcPatch), wc, input.wcPatch), Outcome(false, Some(SubnetsNotSet)))
      else
        var e := Body(mc, wc, input.mcClient.value, input.wcClient.value);
        (Patched(Patched(clusters, e.mc, input.mcPatch), e.wc, input.wcPatch),
         Closed(Closed(Finished(e.failure), mcName, input.mcPatch), req, input.wcPatch))
  }
}
