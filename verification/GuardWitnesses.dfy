/** Concrete clusters and runs after which an endpoint is left without a finalizer to guard it. */
module GuardWitnesses {
  import opened Types
  import opened Conditions
  import opened EndpointLists
  import opened ServiceSpec
  import opened Isolation
  import opened Reconciliation
  import opened ClusterObjects
  import opened ControllerSpec
  import opened ReconcileFacts
  import opened FinalizerGuard
  import AzureApi

  const MC := NamespacedName("org", "mc")
  const WC := NamespacedName("org", "wc")
  const LINK := PrivateLink("api", [Some("sub")], [])

  function ExampleMc(list: Endpoints): AzureCluster {
    AzureCluster(ClusterInfo(MC, "sub", "here", "mc"), Internal, [], [Subnet(Node, list)], map[], [], [], false)
  }

  function ExampleWc(links: seq<PrivateLink>, finalizers: seq<string>, deleting: bool): AzureCluster {
    AzureCluster(ClusterInfo(WC, "sub", "here", "wc"), Internal, links, [Subnet(Node, [])], map[],
                 [Condition(PRIVATE_LINKS_READY, ConditionTrue)], finalizers, deleting)
  }

  function ExampleSpec(): PrivateEndpointSpec {
    WantedSpec(SiteOf(ExampleMc([]), ExampleWc([LINK], [], false)), LINK)
  }

  /** A management cluster with the given endpoints and one workload cluster. */
  function Example(list: Endpoints, links: seq<PrivateLink>, finalizers: seq<string>, deleting: bool): Clusters {
    map[MC := ExampleMc(list), WC := ExampleWc(links, finalizers, deleting)]
  }

  function Silent(mcPatch: bool, wcPatch: bool): RunInput {
    var nobody := AzureApi.Client((group, name) => AzureApi.NotFound, address => address);
    RunInput(Ok(nobody), Ok(nobody), mcPatch, wcPatch)
  }

  lemma ExampleRuns(list: Endpoints, links: seq<PrivateLink>, finalizers: seq<string>, deleting: bool, mcPatch: bool,
                    wcPatch: bool)
    ensures var clusters := Example(list, links, finalizers, deleting);
            && WellFormed(clusters) && GetsToBody(clusters, MC, WC, Silent(mcPatch, wcPatch)) && Lasting(clusters[MC])
            && clusters[WC] == ExampleWc(links, finalizers, deleting)
            && EndpointsOf(clusters[MC]) == list
            && SiteOf(clusters[MC], clusters[WC]) == Site(ExampleMc([]).info, ExampleWc([], [], false).info, links)
  {
  }

  lemma ExampleWants(site: Site)
    requires site == Site(ExampleMc([]).info, ExampleWc([], [], false).info, [LINK])
    ensures AllowedLinks(site) == [LINK] && Wants(site, ExampleSpec().name) && ToCluster(site.wc, ExampleSpec())
  {
    assert LINK.allowedSubscriptions[0] == Some("sub");
    OneLink(site, LINK);
    assert WantedSpecs(site)[0].name == ExampleSpec().name;
    WantedNotPrunable(site);
    assert ExampleSpec() in WantedSpecs(site);
  }

  lemma ExampleGuarded(list: Endpoints, finalizers: seq<string>, deleting: bool)
    requires list == [] || AZURE_CLUSTER_FINALIZER in finalizers
    ensures GuardedIn(Example(list, [LINK], finalizers, deleting), MC, ExampleWc([LINK], finalizers, deleting))
  {
  }

  /** A new cluster, the patch with its first finalizer refused: the endpoint is there, the finalizer is not. */
  lemma RefusedFinalizerBreaksGuard(before: Clusters, input: RunInput)
    requires before == Example([], [LINK], [], false) && input == Silent(true, false)
    ensures GuardedIn(before, MC, before[WC])
    ensures var after := ReconcileStep(before, MC, WC, input).0;
            !GuardedIn(after, MC, before[WC]) && WC in after && !Holds(after[WC])
  {
    ExampleRuns([], [LINK], [], false, true, false);
    ExampleWants(SiteOf(before[MC], before[WC]));
    ExampleGuarded([], [], false);
    LiveRunBreaks(before, MC, WC, input);
  }

  lemma LiveRunBreaks(clusters: Clusters, mcName: NamespacedName, req: NamespacedName, input: RunInput)
    requires WellFormed(clusters) && GetsToBody(clusters, mcName, req, input) && Lasting(clusters[mcName])
    requires !clusters[req].deleting && clusters[req].lbType.Internal? && GuardedIn(clusters, mcName, clusters[req])
    requires input.mcPatch && !input.wcPatch && !Holds(clusters[req])
    requires AllowedLinks(SiteOf(clusters[mcName], clusters[req])) != []
             && IsTrue(clusters[req].conditions, PRIVATE_LINKS_READY)
    ensures var after := ReconcileStep(clusters, mcName, req, input).0;
            !GuardedIn(after, mcName, clusters[req]) && req in after && !Holds(after[req])
  {
    RunStores(clusters, mcName, req, input);
    LiveRunKeepsGuard(clusters, mcName, req, input);
  }

  /** A deleted cluster, the management cluster's patch refused: the cluster goes, its endpoint stays. */
  lemma RefusedRemovalBreaksGuard(before: Clusters, input: RunInput)
    requires before == Example([ExampleSpec()], [LINK], [AZURE_CLUSTER_FINALIZER], true) && input == Silent(false, true)
    ensures GuardedIn(before, MC, before[WC])
    ensures var after := ReconcileStep(before, MC, WC, input).0;
            !GuardedIn(after, MC, before[WC]) && WC !in after && MC in after
                && EndpointsOf(after[MC]) == [ExampleSpec()]
  {
    var list, finalizers := [ExampleSpec()], [AZURE_CLUSTER_FINALIZER];
    ExampleRuns(list, [LINK], finalizers, true, false, true);
    ExampleWants(SiteOf(before[MC], before[WC]));
    assert finalizers[0] == AZURE_CLUSTER_FINALIZER && Wants(SiteOf(before[MC], before[WC]), list[0].name);
    ExampleGuarded(list, finalizers, true);
    assert LeavesWanted(SiteOf(before[MC], before[WC]), list, false);
    DeleteRunBreaks(before, MC, WC, input);
  }

  lemma DeleteRunBreaks(clusters: Clusters, mcName: NamespacedName, req: NamespacedName, input: RunInput)
    requires WellFormed(clusters) && GetsToBody(clusters, mcName, req, input) && Lasting(clusters[mcName])
    requires clusters[req].deleting && clusters[req].lbType.Internal?
             && clusters[req].finalizers == [AZURE_CLUSTER_FINALIZER]
    requires GuardedIn(clusters, mcName, clusters[req])
    requires input.wcPatch
             && LeavesWanted(SiteOf(clusters[mcName], clusters[req]), EndpointsOf(clusters[mcName]), input.mcPatch)
    ensures var after := ReconcileStep(clusters, mcName, req, input).0;
            !GuardedIn(after, mcName, clusters[req]) && req !in after && mcName in after
            && after[mcName] == Stored(clusters[mcName], Deleting(clusters[mcName], clusters[req]).mc, input.mcPatch)
  {
    assert clusters[req].finalizers[0] == AZURE_CLUSTER_FINALIZER;
    RunStores(clusters, mcName, req, input);
    DeleteRunKeepsGuard(clusters, mcName, req, input);
    ReleaseExactly(clusters, mcName, req, input);
  }

  lemma ExampleDuplicate(site: Site)
    requires site == Site(ExampleMc([]).info, ExampleWc([], [], false).info, [LINK])
    ensures OutlastsDelete(site, [ExampleSpec(), ExampleSpec()], 0)
    ensures DeleteMcToWcApi(site, [ExampleSpec(), ExampleSpec()]) == [ExampleSpec()]
  {
    var spec := ExampleSpec();
    var list := [spec, spec];
    ExampleWants(site);
    OneLink(site, LINK);
    assert WantedSpecs(site) == [WantedSpec(site, LINK)];
    assert list[1..] == [spec] && list[2..] == [];
    assert CountName([spec], spec.name) == 1 == CountName(WantedSpecs(site), spec.name);
    var names := Names(WantedSpecs(site));
    assert names == [spec.name] && names[1..] == [];
    RemoveRightmost(list, 1);
    assert RemoveAll(list, names) == RemoveByName(list, spec.name) == [spec];
  }

  /** A deleted cluster whose endpoint is in the list twice, all patches stored: one copy stays. */
  lemma DuplicateBreaksGuard(before: Clusters, input: RunInput)
    requires before == Example([ExampleSpec(), ExampleSpec()], [LINK], [AZURE_CLUSTER_FINALIZER], true)
    requires input == Silent(true, true)
    ensures GuardedIn(before, MC, before[WC])
    ensures var after := ReconcileStep(before, MC, WC, input).0;
            !GuardedIn(after, MC, before[WC]) && WC !in after && MC in after
            && EndpointsOf(after[MC]) == [ExampleSpec()]
  {
    var list, finalizers := [ExampleSpec(), ExampleSpec()], [AZURE_CLUSTER_FINALIZER];
    ExampleRuns(list, [LINK], finalizers, true, true, true);
    ExampleWants(SiteOf(before[MC], before[WC]));
    ExampleDuplicate(SiteOf(before[MC], before[WC]));
    assert finalizers[0] == AZURE_CLUSTER_FINALIZER && Wants(SiteOf(before[MC], before[WC]), list[0].name);
    ExampleGuarded(list, finalizers, true);
    assert LeavesWanted(SiteOf(before[MC], before[WC]), list, true);
    DeleteRunBreaks(before, MC, WC, input);
    ReadBack(before[MC], [ExampleSpec()]);
  }

  /** With its private links gone before the deletion, all patches are stored and the endpoint stays. */
  lemma ForgottenLinkLeavesEndpoint(before: Clusters, input: RunInput)
    requires before == Example([ExampleSpec()], [], [AZURE_CLUSTER_FINALIZER], true) && input == Silent(true, true)
    ensures var after := ReconcileStep(before, MC, WC, input).0;
            WC !in after && MC in after && EndpointsOf(after[MC]) == [ExampleSpec()]
    ensures ToCluster(before[WC].info, ExampleSpec())
  {
    var list, finalizers := [ExampleSpec()], [AZURE_CLUSTER_FINALIZER];
    ExampleRuns(list, [], finalizers, true, true, true);
    ExampleWants(SiteOf(before[MC], before[WC]).(links := [LINK]));
    LinklessDelete(before, MC, WC, input);
  }

  lemma LinklessDelete(clusters: Clusters, mcName: NamespacedName, req: NamespacedName, input: RunInput)
    requires WellFormed(clusters) && GetsToBody(clusters, mcName, req, input) && Lasting(clusters[mcName])
    requires clusters[req].deleting && clusters[req].privateLinks == [] && input.mcPatch && input.wcPatch
    requires clusters[req].finalizers == [AZURE_CLUSTER_FINALIZER]
    ensures var after := ReconcileStep(clusters, mcName, req, input).0;
            req !in after && mcName in after && EndpointsOf(after[mcName]) == EndpointsOf(clusters[mcName])
  {
    var mc, wc := clusters[mcName], clusters[req];
    assert wc.finalizers[0] == AZURE_CLUSTER_FINALIZER;
    RunStores(clusters, mcName, req, input);
    ReleaseExactly(clusters, mcName, req, input);
    assert WantedSpecs(SiteOf(mc, wc)) == [];
    SiteUnchanged(mc, DeleteMcToWcApi(SiteOf(mc, wc), EndpointsOf(mc)), wc);
  }
}
