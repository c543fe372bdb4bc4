/** What one run of the AzureCluster controller promises about the stored clusters, field by field. */
module RunPromises {
  import opened Types
  import opened Sequences
  import opened Conditions
  import opened EndpointLists
  import opened ServiceSpec
  import opened ClusterObjects
  import opened AzureApi
  import opened ControllerSpec
  import opened ReconcileFacts
  import opened FinalizerGuard
  import opened ServicePromises

  predicate InternalOrPublic(c: AzureCluster) {
    c.lbType == Internal || c.lbType == Public
  }

  // ---- early exits

  /** The first check that fails, in the order of the code. */
  function FailedCheck(clusters: Clusters, mcName: NamespacedName, req: NamespacedName, input: RunInput): Option<Error>
    requires req in clusters && req != mcName
  {
    if mcName !in clusters then Some(ObjectNotFound)
    else if !InternalOrPublic(clusters[req]) || !InternalOrPublic(clusters[mcName]) then Some(UnknownLoadBalancerType)
    else if input.mcClient.Err? then Some(input.mcClient.error)
    else if input.wcClient.Err? then Some(input.wcClient.error)
    else if clusters[mcName].subnets == [] || clusters[req].subnets == [] then Some(SubnetsNotSet)
    else None
  }

  /** A run for nothing, or for the management cluster, ends well and changes nothing. */
  lemma NothingToDo(clusters: Clusters, mcName: NamespacedName, req: NamespacedName, input: RunInput)
    requires req !in clusters || req == mcName
    ensures ReconcileStep(clusters, mcName, req, input) == (clusters, Outcome(false, None))
  {
  }

  /** A run with a failed check reports that and stores what it read; a run without one gets to its body. */
  lemma FailedCheckReported(clusters: Clusters, mcName: NamespacedName, req: NamespacedName, input: RunInput)
    requires WellFormed(clusters) && req in clusters && req != mcName
    requires forall n :: n in clusters ==> Lasting(clusters[n])
    ensures FailedCheck(clusters, mcName, req, input).Some? ==>
              ReconcileStep(clusters, mcName, req, input)
              == (clusters, Outcome(false, FailedCheck(clusters, mcName, req, input)))
    ensures FailedCheck(clusters, mcName, req, input).None? <==> GetsToBody(clusters, mcName, req, input)
  {
    PatchUnedited(clusters, clusters[req], input.wcPatch);
    if mcName in clusters {
      PatchUnedited(clusters, clusters[mcName], input.mcPatch);
    }
  }

  // ---- finalizers

  const OWN := "azure-private-endpoint-operator.giantswarm.io/azurecluster"

  function Others(finalizers: seq<string>): seq<string> {
    Filter((f: string) => f != OWN, finalizers)
  }

  lemma {:induction false} OthersIsWithout(finalizers: seq<string>)
    ensures Others(finalizers) == WithoutFinalizer(finalizers, AZURE_CLUSTER_FINALIZER)
  {
    if finalizers != [] {
      OthersIsWithout(finalizers[1..]);
    }
  }

  lemma OthersStay(finalizers: seq<string>)
    ensures Others(finalizers + [OWN]) == Others(finalizers)
    ensures Others(Others(finalizers)) == Others(finalizers)
  {
    var p := (f: string) => f != OWN;
    FilterAppend(p, finalizers, [OWN]);
    assert Filter(p, [OWN]) == [];
    FilterWeaker(p, p, finalizers);
  }

  lemma BodyFinalizers(mc: AzureCluster, wc: AzureCluster, mcClient: Client, wcClient: Client)
    ensures Body(mc, wc, mcClient, wcClient).wc.finalizers ==
              if wc.deleting then Others(wc.finalizers)
              else if OWN in wc.finalizers then wc.finalizers
              else wc.finalizers + [OWN]
    ensures Others(Body(mc, wc, mcClient, wcClient).wc.finalizers) == Others(wc.finalizers)
  {
    OthersIsWithout(wc.finalizers);
    OthersStay(wc.finalizers);
  }

  lemma StoredIsReadOrEdited(clusters: Clusters, mcName: NamespacedName, req: NamespacedName, input: RunInput)
    requires WellFormed(clusters) && req in clusters && req != mcName
             && req in ReconcileStep(clusters, mcName, req, input).0
    ensures var after := ReconcileStep(clusters, mcName, req, input).0;
            || after[req] == clusters[req]
            || (GetsToBody(clusters, mcName, req, input)
                && after[req] == Body(clusters[mcName], clusters[req], input.mcClient.value, input.wcClient.value).wc)
  {
    if GetsToBody(clusters, mcName, req, input) {
      BodyFrame(clusters[mcName], clusters[req], input.mcClient.value, input.wcClient.value);
    }
  }

  /** Whatever becomes of a run, nobody else's finalizer comes, goes or moves. */
  lemma OthersFinalizersStay(clusters: Clusters, mcName: NamespacedName, req: NamespacedName, input: RunInput)
    requires WellFormed(clusters) && req in clusters && req != mcName
    ensures req in ReconcileStep(clusters, mcName, req, input).0 ==>
              Others(ReconcileStep(clusters, mcName, req, input).0[req].finalizers) == Others(clusters[req].finalizers)
  {
    if req in ReconcileStep(clusters, mcName, req, input).0 {
      StoredIsReadOrEdited(clusters, mcName, req, input);
      if GetsToBody(clusters, mcName, req, input) {
        BodyFinalizers(clusters[mcName], clusters[req], input.mcClient.value, input.wcClient.value);
      }
    }
  }

  // ---- what a run that passes its checks stores and reports

  /** The error of the first refused patch, the management cluster's before the workload cluster's. */
  function Refusal(mcName: NamespacedName, req: NamespacedName, input: RunInput): Option<Error> {
    if !input.mcPatch then Some(PatchFailure(mcName))
    else if !input.wcPatch then Some(PatchFailure(req))
    else None
  }

  /** The first half of a live run: endpoints to the API server of a private workload cluster, once its links are
      ready. */
  function ApiPart(mc: AzureCluster, wc: AzureCluster, client: Client): Ensured {
    if wc.lbType == Internal
    then ReconcileMcToWcApi(Site(mc.info, wc.info, wc.privateLinks),
                            FirstOfKindIsTrue(wc.conditions, "PrivateLinksReady"),
                            OracleOf(client, mc.info.resourceGroup), EndpointsOf(mc), wc.annotations)
    else Ensured(EndpointsOf(mc), wc.annotations, None)
  }

  /** The second half, of which nothing happens if the first failed: the gateway endpoint. */
  function GatewayPart(mc: AzureCluster, wc: AzureCluster, api: Ensured, client: Client): Ingress {
    if api.failure.Some? then Ingress(Ensured(EndpointsOf(wc), api.annotations, api.failure), wc.conditions)
    else WcToMc(mc, wc, OracleOf(client, wc.info.resourceGroup), api.annotations)
  }

  lemma ApiPartIs(mc: AzureCluster, wc: AzureCluster, client: Client)
    ensures McToWc(mc, wc, OracleOf(client, mc.info.resourceGroup)) == ApiPart(mc, wc, client)
  {
    TrueExactly(wc.conditions, PRIVATE_LINKS_READY);
  }

  lemma WrittenBack(c: AzureCluster, list: Endpoints, c': AzureCluster)
    requires c.subnets != [] && c'.subnets == WithEndpoints(c, list).subnets
    ensures EndpointsOf(c') == list
  {
    ReadBack(c, list);
    SubnetChoiceIgnoresEndpoints(WithEndpoints(c, list).subnets, c'.subnets);
  }

  lemma LiveParts(mc: AzureCluster, wc: AzureCluster, mcClient: Client, wcClient: Client)
    requires mc.subnets != [] && wc.subnets != [] && !wc.deleting
    ensures var api := ApiPart(mc, wc, mcClient);
            var gateway := GatewayPart(mc, wc, api, wcClient);
            var e := Body(mc, wc, mcClient, wcClient);
            && EndpointsOf(e.mc) == api.list && EndpointsOf(e.wc) == gateway.ensured.list
            && e.wc.annotations == gateway.ensured.annotations && e.wc.conditions == gateway.conditions
            && e.failure == gateway.ensured.failure
  {
    var api := ApiPart(mc, wc, mcClient);
    var gateway := GatewayPart(mc, wc, api, wcClient);
    ApiPartIs(mc, wc, mcClient);
    var e := Body(mc, wc, mcClient, wcClient);
    WrittenBack(mc, api.list, e.mc);
    WrittenBack(wc, gateway.ensured.list, e.wc);
  }

  /** What a live run stores in the management cluster, and in the workload cluster. */
  lemma LiveRunStores(clusters: Clusters, mcName: NamespacedName, req: NamespacedName, input: RunInput)
    requires WellFormed(clusters) && GetsToBody(clusters, mcName, req, input) && Lasting(clusters[mcName])
    requires !clusters[req].deleting
    ensures mcName in ReconcileStep(clusters, mcName, req, input).0
            && req in ReconcileStep(clusters, mcName, req, input).0
    ensures var mc, wc := clusters[mcName], clusters[req];
            var api := ApiPart(mc, wc, input.mcClient.value);
            var after := ReconcileStep(clusters, mcName, req, input).0[mcName];
            && SameButEndpoints(mc, after)
            && EndpointsOf(after) == if input.mcPatch then api.list else EndpointsOf(mc)
    ensures var mc, wc := clusters[mcName], clusters[req];
            var api := ApiPart(mc, wc, input.mcClient.value);
            var gateway := GatewayPart(mc, wc, api, input.wcClient.value);
            var after := ReconcileStep(clusters, mcName, req, input).0[req];
            if !input.wcPatch then after == wc
            else && SameButOwned(wc, after)
                 && EndpointsOf(after) == gateway.ensured.list
                 && after.annotations == gateway.ensured.annotations
                 && after.conditions == gateway.conditions
                 && after.finalizers == if OWN in wc.finalizers then wc.finalizers else wc.finalizers + [OWN]
  {
    var mc, wc := clusters[mcName], clusters[req];
    RunStores(clusters, mcName, req, input);
    RunFrame(clusters, mcName, req, input);
    LiveParts(mc, wc, input.mcClient.value, input.wcClient.value);
    BodyFinalizers(mc, wc, input.mcClient.value, input.wcClient.value);
  }

  /** The failures that time may cure: links that are not ready, and IPs that Azure does not know yet. */
  predicate MayStillCome(failure: Option<Error>) {
    || failure == Some(PrivateLinksNotReady) || failure == Some(PrivateEndpointNotFound)
    || failure == Some(NetworkInterfaceNotFound) || failure == Some(PrivateAddressNotFound)
  }

  /** What a live run reports: the failure of its two halves, unless that asks for another run, and otherwise
      the first refused patch. */
  lemma LiveRunReports(clusters: Clusters, mcName: NamespacedName, req: NamespacedName, input: RunInput)
    requires GetsToBody(clusters, mcName, req, input) && !clusters[req].deleting
    ensures var mc, wc := clusters[mcName], clusters[req];
            var api := ApiPart(mc, wc, input.mcClient.value);
            var failure := GatewayPart(mc, wc, api, input.wcClient.value).ensured.failure;
            && ReconcileStep(clusters, mcName, req, input).1.requeue == MayStillCome(failure)
            && ReconcileStep(clusters, mcName, req, input).1.error ==
                 if failure.Some? && !MayStillCome(failure) then failure else Refusal(mcName, req, input)
  {
    RunReports(clusters, mcName, req, input);
    LiveParts(clusters[mcName], clusters[req], input.mcClient.value, input.wcClient.value);
  }

  /** What a delete run stores and reports: the links' endpoints go from the management cluster's list if the
      API server is private, and the own finalizer, and with the last finalizer the workload cluster itself. */
  lemma DeleteRunStores(clusters: Clusters, mcName: NamespacedName, req: NamespacedName, input: RunInput)
    requires WellFormed(clusters) && GetsToBody(clusters, mcName, req, input) && Lasting(clusters[mcName])
    requires clusters[req].deleting && Lasting(clusters[req])
    ensures mcName in ReconcileStep(clusters, mcName, req, input).0
    ensures var mc, wc := clusters[mcName], clusters[req];
            var after := ReconcileStep(clusters, mcName, req, input).0[mcName];
            && SameButEndpoints(mc, after)
            && EndpointsOf(after) ==
                 if input.mcPatch && wc.lbType == Internal
                 then DeleteMcToWcApi(Site(mc.info, wc.info, wc.privateLinks), EndpointsOf(mc)) else EndpointsOf(mc)
    ensures var wc := clusters[req];
            var after := ReconcileStep(clusters, mcName, req, input).0;
            if !input.wcPatch then req in after && after[req] == wc
            else if Others(wc.finalizers) == [] then req !in after
            else req in after && after[req] == wc.(finalizers := Others(wc.finalizers))
    ensures ReconcileStep(clusters, mcName, req, input).1 == Outcome(false, Refusal(mcName, req, input))
  {
    var mc, wc := clusters[mcName], clusters[req];
    RunStores(clusters, mcName, req, input);
    RunFrame(clusters, mcName, req, input);
    RunReports(clusters, mcName, req, input);
    OthersIsWithout(wc.finalizers);
    ReadBack(mc, DeleteMcToWcApi(SiteOf(mc, wc), EndpointsOf(mc)));
  }

  /** Both addresses end to end: a live run between private clusters that ends well has stored, for dns, the IP
      that Azure gave for the last link's endpoint, and the one it gave for the gateway's. */
  lemma DoneRunNotesAddresses(clusters: Clusters, mcName: NamespacedName, req: NamespacedName, input: RunInput, k: nat)
    requires WellFormed(clusters) && GetsToBody(clusters, mcName, req, input) && Lasting(clusters[mcName])
    requires !clusters[req].deleting && clusters[mcName].lbType == Internal && clusters[req].lbType == Internal
    requires ReconcileStep(clusters, mcName, req, input).1 == Outcome(false, None)
    requires k < |clusters[req].privateLinks|
    requires Some(clusters[mcName].info.subscriptionID) in clusters[req].privateLinks[k].allowedSubscriptions
    requires forall j :: k < j < |clusters[req].privateLinks| ==>
               Some(clusters[mcName].info.subscriptionID) !in clusters[req].privateLinks[j].allowedSubscriptions
    ensures req in ReconcileStep(clusters, mcName, req, input).0
    ensures var mc, wc := clusters[mcName], clusters[req];
            var api := EndpointIP(input.mcClient.value, mc.info.resourceGroup,
                                  wc.privateLinks[k].name + "-privateendpoint");
            var gateway := EndpointIP(input.wcClient.value, wc.info.resourceGroup,
                                      wc.info.id.name + "-to-" + mc.info.id.name + "-gateway-privateendpoint");
            && api.Ok? && gateway.Ok?
            && ReconcileStep(clusters, mcName, req, input).0[req].annotations
               == wc.annotations
                  ["azure-private-endpoint-operator.giantswarm.io/private-link-apiserver-ip" := api.value]
                  ["azure-private-endpoint-operator.giantswarm.io/private-link-mc-ingress-ip" := gateway.value]
  {
    var mc, wc := clusters[mcName], clusters[req];
    var site := Site(mc.info, wc.info, wc.privateLinks);
    var api := ApiPart(mc, wc, input.mcClient.value);
    LiveRunReports(clusters, mcName, req, input);
    LiveRunStores(clusters, mcName, req, input);
    NotesLastIP(site, FirstOfKindIsTrue(wc.conditions, "PrivateLinksReady"),
                OracleOf(input.mcClient.value, mc.info.resourceGroup), EndpointsOf(mc), wc.annotations, k);
    IngressExactly(mc, wc, OracleOf(input.wcClient.value, wc.info.resourceGroup), api.annotations);
  }
}
