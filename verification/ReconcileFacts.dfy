/** What one run of the AzureCluster controller may change, and what it reports. */
module ReconcileFacts {
  import opened Types
  import opened EndpointLists
  import opened ServiceSpec
  import opened ClusterObjects
  import opened AzureApi
  import opened ControllerSpec
  import Conditions
  import PrivateLinks
  import ResourceIds

  /** Everything of a cluster except the private endpoints of the one subnet that holds them. */
  predicate SameButEndpoints(a: AzureCluster, b: AzureCluster) {
    && a.(subnets := b.subnets) == b
    && |a.subnets| == |b.subnets|
    && (forall i :: 0 <= i < |a.subnets| ==> a.subnets[i].role == b.subnets[i].role)
    && (a.subnets != [] ==>
          forall i :: 0 <= i < |a.subnets| && i != EndpointSubnet(a.subnets) ==> a.subnets[i] == b.subnets[i])
  }

  /** Everything of the workload cluster except its endpoints, finalizers, annotations and added conditions. */
  ghost predicate SameButOwned(a: AzureCluster, b: AzureCluster) {
    && SameButEndpoints(a.(finalizers := b.finalizers, annotations := b.annotations, conditions := b.conditions), b)
    && a.conditions <= b.conditions
    && forall key :: key != API_SERVER_ANNOTATION && key != MC_INGRESS_ANNOTATION ==>
         (key in a.annotations <==> key in b.annotations)
         && (key in a.annotations ==> a.annotations[key] == b.annotations[key])
  }

  lemma WithEndpointsFrame(c: AzureCluster, list: Endpoints)
    ensures SameButEndpoints(c, WithEndpoints(c, list))
  {
  }

  ghost predicate SameBut(key: string, a: map<string, string>, b: map<string, string>) {
    forall k :: k != key ==> (k in a <==> k in b) && (k in a ==> a[k] == b[k])
  }

  lemma ApiFrame(site: Site, ready: bool, ip: IpOracle, list: Endpoints, annotations: map<string, string>)
    ensures SameBut(API_SERVER_ANNOTATION, annotations,
                    ReconcileMcToWcApi(site, ready, ip, list, annotations).annotations)
  {
    EnsureNotes(WantedSpecs(site), API_SERVER_ANNOTATION, ip, list, annotations);
  }

  lemma McToWcFrame(mc: AzureCluster, wc: AzureCluster, ip: IpOracle)
    ensures SameBut(API_SERVER_ANNOTATION, wc.annotations, McToWc(mc, wc, ip).annotations)
  {
    ApiFrame(SiteOf(mc, wc), Conditions.IsTrue(wc.conditions, PRIVATE_LINKS_READY), ip, EndpointsOf(mc),
             wc.annotations);
  }

  lemma WcToMcFrame(mc: AzureCluster, wc: AzureCluster, ip: IpOracle, annotations: map<string, string>)
    ensures SameBut(MC_INGRESS_ANNOTATION, annotations, WcToMc(mc, wc, ip, annotations).ensured.annotations)
    ensures wc.conditions <= WcToMc(mc, wc, ip, annotations).conditions
  {
    EnsureNotes([GatewaySpec(wc.info, mc.info)], MC_INGRESS_ANNOTATION, ip, EndpointsOf(wc), annotations);
  }

  lemma LiveFrame(mc: AzureCluster, wc: AzureCluster, mcIp: IpOracle, wcIp: IpOracle)
    ensures SameButEndpoints(mc, Live(mc, wc, mcIp, wcIp).mc)
    ensures SameButOwned(wc, Live(mc, wc, mcIp, wcIp).wc)
  {
    var api := McToWc(mc, wc, mcIp);
    var ingress := WcToMc(mc, wc, wcIp, api.annotations);
    McToWcFrame(mc, wc, mcIp);
    WcToMcFrame(mc, wc, wcIp, api.annotations);
    WithEndpointsFrame(mc, api.list);
    WithEndpointsFrame(wc, if api.failure.Some? then EndpointsOf(wc) else ingress.ensured.list);
  }

  /** The gateway endpoint leads to the management cluster's own link `<name>-gateway-privatelink` exactly
      when that cluster's resource group bears its name: the ID is built from the name. */
  lemma GatewayLeadsHome(wc: ClusterInfo, mc: ClusterInfo)
    ensures |GatewaySpec(wc, mc).connections| == 1
    ensures GatewaySpec(wc, mc).connections[0].privateLinkServiceID
            == PrivateLinks.IDOf(mc, mc.id.name + "-gateway-privatelink")
       <==> mc.resourceGroup == mc.id.name
  {
    ResourceIds.LinkIDInjectiveInGroup(mc.subscriptionID, mc.id.name, mc.resourceGroup,
                                       mc.id.name + "-gateway-privatelink");
  }

  /** The two clusters of a run that gets past its checks. */
  predicate GetsToBody(clusters: Clusters, mcName: NamespacedName, req: NamespacedName, input: RunInput) {
    && req in clusters && req != mcName && mcName in clusters
    && KnownLBType(clusters[req].lbType) && KnownLBType(clusters[mcName].lbType)
    && input.mcClient.Ok? && input.wcClient.Ok?
    && clusters[mcName].subnets != [] && clusters[req].subnets != []
  }

  lemma BodyFrame(mc: AzureCluster, wc: AzureCluster, mcClient: Client, wcClient: Client)
    ensures SameButEndpoints(mc, Body(mc, wc, mcClient, wcClient).mc)
    ensures SameButOwned(wc, Body(mc, wc, mcClient, wcClient).wc)
  {
    if wc.deleting {
      WithEndpointsFrame(mc, DeleteMcToWcApi(SiteOf(mc, wc), EndpointsOf(mc)));
    } else {
      LiveFrame(mc, wc, OracleOf(mcClient, mc.info.resourceGroup), OracleOf(wcClient, wc.info.resourceGroup));
    }
  }

  /** Other clusters stay as they are, the management cluster changes only in its private endpoints, the
      workload cluster only in what the operator owns, and either disappears only if it was being deleted. */
  ghost predicate Framed(before: Clusters, after: Clusters, mcName: NamespacedName, req: NamespacedName) {
    && (forall n :: n != req && n != mcName ==>
        (n in after <==> n in before) && (n in before ==> after[n] == before[n]))
    && (mcName in after ==> mcName in before && SameButEndpoints(before[mcName], after[mcName]))
    && (mcName in before && mcName !in after ==> before[mcName].deleting)
    && (req in after ==> req in before && SameButOwned(before[req], after[req]))
    && (req in before && req !in after ==> before[req].deleting)
  }

  lemma PatchesFrame(clusters: Clusters, mcName: NamespacedName, req: NamespacedName,
                     mc: AzureCluster, mcPatch: bool, wc: AzureCluster, wcPatch: bool)
    requires req in clusters && mcName in clusters && req != mcName
    requires mc.info.id == mcName && wc.info.id == req
    requires SameButEndpoints(clusters[mcName], mc) && SameButOwned(clusters[req], wc)
    ensures Framed(clusters, Patched(Patched(clusters, mc, mcPatch), wc, wcPatch), mcName, req)
  {
    assert SameButEndpoints(clusters[mcName], clusters[mcName]) && SameButOwned(clusters[req], clusters[req]);
  }

  /** Whatever happens in a run. */
  lemma RunFrame(clusters: Clusters, mcName: NamespacedName, req: NamespacedName, input: RunInput)
    requires WellFormed(clusters)
    ensures req == mcName ==> ReconcileStep(clusters, mcName, req, input).0 == clusters
    ensures req != mcName ==> Framed(clusters, ReconcileStep(clusters, mcName, req, input).0, mcName, req)
  {
    if req in clusters && req != mcName && mcName in clusters {
      var mc, wc := clusters[mcName], clusters[req];
      if GetsToBody(clusters, mcName, req, input) {
        var e := Body(mc, wc, input.mcClient.value, input.wcClient.value);
        BodyFrame(mc, wc, input.mcClient.value, input.wcClient.value);
        PatchesFrame(clusters, mcName, req, e.mc, input.mcPatch, e.wc, input.wcPatch);
      } else if input.mcClient.Err? || input.wcClient.Err? || mc.subnets == [] {
        PatchesFrame(clusters, mcName, req, mc, false, wc, input.wcPatch);
        PatchesFrame(clusters, mcName, req, mc, false, wc, false);
      } else {
        PatchesFrame(clusters, mcName, req, mc, input.mcPatch, wc, input.wcPatch);
        PatchesFrame(clusters, mcName, req, mc, false, wc, false);
      }
    }
  }

  /** The two closes write different objects, so their order shows only in what is reported: for what is
      stored it does not matter, and the error differs exactly if both are refused and none came before. */
  lemma ClosesCommute(clusters: Clusters, mc: AzureCluster, mcPatch: bool, wc: AzureCluster, wcPatch: bool,
                      outcome: Outcome)
    requires mc.info.id != wc.info.id
    ensures Patched(Patched(clusters, mc, mcPatch), wc, wcPatch) == Patched(Patched(clusters, wc, wcPatch), mc, mcPatch)
    ensures Closed(Closed(outcome, mc.info.id, mcPatch), wc.info.id, wcPatch)
         == Closed(Closed(outcome, wc.info.id, wcPatch), mc.info.id, mcPatch)
       <==> outcome.error.Some? || mcPatch || wcPatch
  {
    var a := Patched(Patched(clusters, mc, mcPatch), wc, wcPatch);
    var b := Patched(Patched(clusters, wc, wcPatch), mc, mcPatch);
    assert forall n :: (n in a <==> n in b) && (n in a ==> a[n] == b[n]);
  }

  /** What a run reports: a retriable failure asks for another run, any other failure is the error, and
      without one the first refused patch is, the management cluster's before the workload cluster's. */
  lemma RunReports(clusters: Clusters, mcName: NamespacedName, req: NamespacedName, input: RunInput)
    requires GetsToBody(clusters, mcName, req, input)
    ensures var failure := Body(clusters[mcName], clusters[req], input.mcClient.value, input.wcClient.value).failure;
            var retriable := failure.Some? && IsRetriable(failure.value);
            && (ReconcileStep(clusters, mcName, req, input).1.requeue <==> retriable)
            && ReconcileStep(clusters, mcName, req, input).1.error ==
                 if failure.Some? && !retriable then failure
                 else if !input.mcPatch then Some(PatchFailure(mcName))
                 else if !input.wcPatch then Some(PatchFailure(req))
                 else None
  {
  }

  // ---- when a run asks for another one, and when it is done

  predicate AllHaveIPs(client: Client, group: string, specs: Endpoints) {
    forall e :: e in specs ==> OracleOf(client, group)(e.name).Ok?
  }

  /** Some endpoint has no IP, and for the first such one the call to Azure itself did not fail. */
  predicate AwaitsIP(client: Client, group: string, specs: Endpoints) {
    var k := FirstFailure(specs, OracleOf(client, group));
    k < |specs| && !client.get(group, specs[k].name).Failed?
  }

  /** A link allows the management cluster, and the links are not ready or an endpoint still gets its IP. */
  predicate AwaitsWc(mc: AzureCluster, wc: AzureCluster, client: Client) {
    wc.lbType.Internal? && AllowedLinks(SiteOf(mc, wc)) != []
    && (Conditions.IsTrue(wc.conditions, PRIVATE_LINKS_READY) ==>
          AwaitsIP(client, mc.info.resourceGroup, WantedSpecs(SiteOf(mc, wc))))
  }

  predicate PassesWc(mc: AzureCluster, wc: AzureCluster, client: Client) {
    wc.lbType.Internal? ==>
      && AllowedLinks(SiteOf(mc, wc)) != [] && Conditions.IsTrue(wc.conditions, PRIVATE_LINKS_READY)
      && AllHaveIPs(client, mc.info.resourceGroup, WantedSpecs(SiteOf(mc, wc)))
  }

  lemma EnsureOutcome(client: Client, group: string, specs: Endpoints, key: string, list: Endpoints,
                      annotations: map<string, string>)
    ensures var failure := EnsureEndpoints(specs, key, OracleOf(client, group), list, annotations).failure;
            && (failure.None? <==> AllHaveIPs(client, group, specs))
            && (failure.Some? && IsRetriable(failure.value) <==> AwaitsIP(client, group, specs))
  {
    var ip := OracleOf(client, group);
    var k := FirstFailure(specs, ip);
    EnsureFails(specs, key, ip, list, annotations);
    if k < |specs| {
      assert specs[k] in specs;
      IPErrors(client, group, specs[k].name);
    }
  }

  lemma McToWcOutcome(mc: AzureCluster, wc: AzureCluster, client: Client)
    ensures var failure := McToWc(mc, wc, OracleOf(client, mc.info.resourceGroup)).failure;
            && (failure.None? <==> PassesWc(mc, wc, client))
            && (failure.Some? && IsRetriable(failure.value) <==> AwaitsWc(mc, wc, client))
  {
    if wc.lbType.Internal? {
      var specs := WantedSpecs(SiteOf(mc, wc));
      EnsureOutcome(client, mc.info.resourceGroup, specs, API_SERVER_ANNOTATION, EndpointsOf(mc), wc.annotations);
    }
  }

  lemma LiveOutcome(mc: AzureCluster, wc: AzureCluster, mcClient: Client, wcClient: Client)
    ensures var failure := Live(mc, wc, OracleOf(mcClient, mc.info.resourceGroup),
                                OracleOf(wcClient, wc.info.resourceGroup)).failure;
            var gateway := [GatewaySpec(wc.info, mc.info)];
            && (failure.None? <==>
                  PassesWc(mc, wc, mcClient)
                  && (mc.lbType.Internal? ==> AllHaveIPs(wcClient, wc.info.resourceGroup, gateway)))
            && (failure.Some? && IsRetriable(failure.value) <==>
                  || AwaitsWc(mc, wc, mcClient)
                  || (PassesWc(mc, wc, mcClient) && mc.lbType.Internal?
                      && AwaitsIP(wcClient, wc.info.resourceGroup, gateway)))
  {
    var api := McToWc(mc, wc, OracleOf(mcClient, mc.info.resourceGroup));
    McToWcOutcome(mc, wc, mcClient);
    if api.failure.None? && mc.lbType.Internal? {
      EnsureOutcome(wcClient, wc.info.resourceGroup, [GatewaySpec(wc.info, mc.info)], MC_INGRESS_ANNOTATION,
                    EndpointsOf(wc), api.annotations);
    }
  }

  /** A run past its checks asks for another one exactly while it waits for the links or for an IP that Azure
      did not refuse to tell. */
  lemma RequeuesExactly(clusters: Clusters, mcName: NamespacedName, req: NamespacedName, input: RunInput)
    requires GetsToBody(clusters, mcName, req, input)
    ensures var mc, wc := clusters[mcName], clusters[req];
            ReconcileStep(clusters, mcName, req, input).1.requeue <==>
              && !wc.deleting
              && (|| AwaitsWc(mc, wc, input.mcClient.value)
                  || (PassesWc(mc, wc, input.mcClient.value) && mc.lbType.Internal?
                      && AwaitsIP(input.wcClient.value, wc.info.resourceGroup, [GatewaySpec(wc.info, mc.info)])))
  {
    RunReports(clusters, mcName, req, input);
    LiveOutcome(clusters[mcName], clusters[req], input.mcClient.value, input.wcClient.value);
  }

  /** And it is done, without an error, exactly if both patches are stored and it deletes, or has the IPs of
      all endpoints that the two load balancer types call for. */
  lemma DoneExactly(clusters: Clusters, mcName: NamespacedName, req: NamespacedName, input: RunInput)
    requires GetsToBody(clusters, mcName, req, input)
    ensures var mc, wc := clusters[mcName], clusters[req];
            ReconcileStep(clusters, mcName, req, input).1 == DONE <==>
              && input.mcPatch && input.wcPatch
              && (wc.deleting ||
                  (PassesWc(mc, wc, input.mcClient.value)
                   && (mc.lbType.Internal? ==>
                         AllHaveIPs(input.wcClient.value, wc.info.resourceGroup, [GatewaySpec(wc.info, mc.info)]))))
  {
    RunReports(clusters, mcName, req, input);
    LiveOutcome(clusters[mcName], clusters[req], input.mcClient.value, input.wcClient.value);
  }
}
