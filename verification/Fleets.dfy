/** Runs of the AzureCluster controller for many workload clusters, in any order and with any patches refused:
    how long one of them has to wait. */
module Fleets {
  import opened Types
  import opened Conditions
  import opened EndpointLists
  import opened ServiceSpec
  import opened Reconciliation
  import opened Convergence
  import opened ClusterObjects
  import opened ControllerSpec
  import opened ReconcileFacts
  import opened FinalizerGuard
  import opened Liveness
  import opened ManyClusters
  import AzureApi

  /** The workload clusters whose endpoints are in the management cluster's list. */
  function Sites(clusters: Clusters, mcName: NamespacedName): set<Site>
    requires mcName in clusters
  {
    set n | n in clusters && n != mcName && clusters[n].lbType.Internal? :: SiteOf(clusters[mcName], clusters[n])
  }

  ghost predicate Fleet(clusters: Clusters, mcName: NamespacedName) {
    && WellFormed(clusters) && mcName in clusters && Settled(clusters, mcName)
    && Separate(Sites(clusters, mcName), EndpointsOf(clusters[mcName]))
  }

  // ---- a run is a turn

  lemma ListIgnoresAnnotations(site: Site, ready: bool, ip: IpOracle, list: Endpoints, annotations: map<string, string>)
    ensures ReconcileMcToWcApi(site, ready, ip, list, annotations).list
            == ReconcileMcToWcApi(site, ready, ip, list, map[]).list
  {
    EnsureAdds(WantedSpecs(site), API_SERVER_ANNOTATION, ip, list, annotations);
    EnsureAdds(WantedSpecs(site), API_SERVER_ANNOTATION, ip, list, map[]);
    EnsureFails(WantedSpecs(site), API_SERVER_ANNOTATION, ip, list, annotations);
    EnsureFails(WantedSpecs(site), API_SERVER_ANNOTATION, ip, list, map[]);
  }

  /** What a run that gets to its body does to the list. */
  function TurnIn(clusters: Clusters, mcName: NamespacedName, req: NamespacedName, input: RunInput): Turn
    requires GetsToBody(clusters, mcName, req, input)
  {
    var mc, wc := clusters[mcName], clusters[req];
    Turn(SiteOf(mc, wc),
         if wc.deleting then Delete
         else Reconcile(IsTrue(wc.conditions, PRIVATE_LINKS_READY),
                        AzureApi.OracleOf(input.mcClient.value, mc.info.resourceGroup)))
  }

  lemma BodyList(clusters: Clusters, mcName: NamespacedName, req: NamespacedName, input: RunInput)
    requires GetsToBody(clusters, mcName, req, input)
    ensures EndpointsOf(Body(clusters[mcName], clusters[req], input.mcClient.value, input.wcClient.value).mc)
         == if clusters[req].lbType.Internal?
            then Take(TurnIn(clusters, mcName, req, input), EndpointsOf(clusters[mcName]))
            else EndpointsOf(clusters[mcName])
  {
    var mc, wc := clusters[mcName], clusters[req];
    if wc.deleting {
      ReadBack(mc, DeleteMcToWcApi(SiteOf(mc, wc), EndpointsOf(mc)));
    } else {
      var ip := AzureApi.OracleOf(input.mcClient.value, mc.info.resourceGroup);
      ReadBack(mc, McToWc(mc, wc, ip).list);
      ListIgnoresAnnotations(SiteOf(mc, wc), IsTrue(wc.conditions, PRIVATE_LINKS_READY), ip, EndpointsOf(mc),
                             wc.annotations);
    }
  }

  /** Any run, whatever becomes of its patches, leaves the list alone or takes its cluster's turn. */
  lemma RunIsTurn(clusters: Clusters, mcName: NamespacedName, req: NamespacedName, input: RunInput)
    requires WellFormed(clusters) && mcName in clusters && Settled(clusters, mcName)
    ensures mcName in ReconcileStep(clusters, mcName, req, input).0
    ensures var after := EndpointsOf(ReconcileStep(clusters, mcName, req, input).0[mcName]);
            || after == EndpointsOf(clusters[mcName])
            || (GetsToBody(clusters, mcName, req, input) && clusters[req].lbType.Internal?
                && after == Take(TurnIn(clusters, mcName, req, input), EndpointsOf(clusters[mcName])))
  {
    if GetsToBody(clusters, mcName, req, input) {
      RunStores(clusters, mcName, req, input);
      BodyList(clusters, mcName, req, input);
    } else if req in clusters && req != mcName {
      PatchUnedited(clusters, clusters[req], input.wcPatch);
      PatchUnedited(clusters, clusters[mcName], input.mcPatch);
    }
  }

  lemma FewerSites(before: Clusters, after: Clusters, mcName: NamespacedName, req: NamespacedName)
    requires WellFormed(before) && mcName in before && mcName in after && req != mcName
    requires Framed(before, after, mcName, req)
    ensures Sites(after, mcName) <= Sites(before, mcName)
  {
    forall site | site in Sites(after, mcName) ensures site in Sites(before, mcName) {
      var n :| n in after && n != mcName && after[n].lbType.Internal? && site == SiteOf(after[mcName], after[n]);
      assert n in before && before[n].lbType.Internal? && SiteOf(before[mcName], before[n]) == site;
    }
  }

  lemma FewerStaySeparate(fewer: set<Site>, sites: set<Site>, list: Endpoints)
    requires fewer <= sites && Separate(sites, list)
    ensures Separate(fewer, list)
  {
  }

  lemma RunKeepsFleet(clusters: Clusters, mcName: NamespacedName, req: NamespacedName, input: RunInput)
    requires Fleet(clusters, mcName)
    ensures Fleet(ReconcileStep(clusters, mcName, req, input).0, mcName)
  {
    var after := ReconcileStep(clusters, mcName, req, input).0;
    RunIsTurn(clusters, mcName, req, input);
    RunFrame(clusters, mcName, req, input);
    StepSettles(clusters, mcName, req, input);
    if req != mcName {
      var sites, list := Sites(clusters, mcName), EndpointsOf(clusters[mcName]);
      FewerSites(clusters, after, mcName, req);
      if EndpointsOf(after[mcName]) != list {
        assert SiteOf(clusters[mcName], clusters[req]) in sites;
        TurnKeepsSeparate(sites, TurnIn(clusters, mcName, req, input), list);
      }
      FewerStaySeparate(Sites(after, mcName), sites, EndpointsOf(after[mcName]));
    }
  }

  // ---- what a run for one cluster means for another

  /** Nothing that the cluster waits for or relies on has got worse. */
  predicate Undisturbed(before: Clusters, after: Clusters, mcName: NamespacedName, n: NamespacedName) {
    && mcName in before && n in before && mcName in after && n in after
    && (before[n].deleting <==> after[n].deleting)
    && Follows(Edited(before[mcName], before[n], None), after[mcName], after[n])
  }

  lemma OthersPersist(clusters: Clusters, mcName: NamespacedName, req: NamespacedName, input: RunInput,
                      n: NamespacedName)
    requires Fleet(clusters, mcName) && n in clusters && n != mcName && n != req
    ensures mcName in ReconcileStep(clusters, mcName, req, input).0
    ensures Persists(WantedInMc(clusters[mcName], clusters[n]), EndpointsOf(clusters[mcName]),
                     EndpointsOf(ReconcileStep(clusters, mcName, req, input).0[mcName]))
  {
    RunIsTurn(clusters, mcName, req, input);
    if GetsToBody(clusters, mcName, req, input) && clusters[req].lbType.Internal? && clusters[n].lbType.Internal? {
      var site, turn := SiteOf(clusters[mcName], clusters[n]), TurnIn(clusters, mcName, req, input);
      assert turn.site in Sites(clusters, mcName) && site in Sites(clusters, mcName);
      TurnPersists(Sites(clusters, mcName), turn, EndpointsOf(clusters[mcName]), site);
    }
  }

  /** A run for another cluster, live or deleting, disturbs nobody. */
  lemma OthersFollow(clusters: Clusters, mcName: NamespacedName, req: NamespacedName, input: RunInput,
                     n: NamespacedName)
    requires Fleet(clusters, mcName) && n in clusters && n != mcName && n != req
    ensures Undisturbed(clusters, ReconcileStep(clusters, mcName, req, input).0, mcName, n)
  {
    var after := ReconcileStep(clusters, mcName, req, input).0;
    RunFrame(clusters, mcName, req, input);
    RunKeepsFleet(clusters, mcName, req, input);
    OthersPersist(clusters, mcName, req, input, n);
    assert after[n] == clusters[n] && SiteOf(after[mcName], after[n]) == SiteOf(clusters[mcName], clusters[n]);
    if after[n].lbType.Internal? {
      assert SiteOf(after[mcName], after[n]) in Sites(after, mcName);
    }
  }

  // ---- waiting among others

  datatype FleetStep =
    | Run(req: NamespacedName, input: RunInput)
    | Others(after: Clusters)

  function AfterStep(clusters: Clusters, mcName: NamespacedName, step: FleetStep): Clusters {
    match step
    case Run(req, input) => ReconcileStep(clusters, mcName, req, input).0
    case Others(after) => after
  }

  /** A stored run for `n` that still waits for an IP although Azure served all it had persisted before. */
  predicate StillWaits(clusters: Clusters, mcName: NamespacedName, n: NamespacedName, input: RunInput) {
    && GetsToBody(clusters, mcName, n, input) && !clusters[n].deleting && input.mcPatch && input.wcPatch
    && var mcIp := AzureApi.OracleOf(input.mcClient.value, clusters[mcName].info.resourceGroup);
    && var wcIp := AzureApi.OracleOf(input.wcClient.value, clusters[n].info.resourceGroup);
    && Materialised(clusters[mcName], clusters[n], mcIp, wcIp)
    && Live(clusters[mcName], clusters[n], mcIp, wcIp).failure.Some?
  }

  /** Runs for any clusters, and steps of others that keep the fleet and do not disturb `n`; all runs for `n` wait. */
  ghost predicate Waits(clusters: Clusters, mcName: NamespacedName, n: NamespacedName, steps: seq<FleetStep>)
    decreases |steps|
  {
    steps == [] ||
    (&& (steps[0].Run? && steps[0].req == n ==> StillWaits(clusters, mcName, n, steps[0].input))
     && (steps[0].Others? ==> Fleet(steps[0].after, mcName) && Undisturbed(clusters, steps[0].after, mcName, n))
     && Waits(AfterStep(clusters, mcName, steps[0]), mcName, n, steps[1..]))
  }

  function RunsOf(n: NamespacedName, steps: seq<FleetStep>): nat {
    if steps == [] then 0 else (if steps[0].Run? && steps[0].req == n then 1 else 0) + RunsOf(n, steps[1..])
  }

  predicate Waiter(clusters: Clusters, mcName: NamespacedName, n: NamespacedName) {
    mcName in clusters && n in clusters && n != mcName && !clusters[n].deleting && Ready(clusters[mcName], clusters[n])
  }

  /** A waiting run of the cluster itself leaves less to wait for. */
  lemma OwnRunProgresses(clusters: Clusters, mcName: NamespacedName, n: NamespacedName, input: RunInput)
    requires Fleet(clusters, mcName) && Waiter(clusters, mcName, n) && StillWaits(clusters, mcName, n, input)
    ensures var after := ReconcileStep(clusters, mcName, n, input).0;
            Waiter(after, mcName, n) && Lacking(after[mcName], after[n]) < Lacking(clusters[mcName], clusters[n])
  {
    var mc, wc := clusters[mcName], clusters[n];
    var mcIp := AzureApi.OracleOf(input.mcClient.value, mc.info.resourceGroup);
    var wcIp := AzureApi.OracleOf(input.wcClient.value, wc.info.resourceGroup);
    RunStores(clusters, mcName, n, input);
    BodyFrame(mc, wc, input.mcClient.value, input.wcClient.value);
    LiveStaysReady(mc, wc, mcIp, wcIp);
    WaitingMakesProgress(mc, wc, mcIp, wcIp);
  }

  /** With n allowed links a cluster has at most n + 1 waiting runs, however many runs and deletions of
      other clusters come in between and whatever becomes of their patches. */
  lemma {:induction false} WaitingAmongOthers(clusters: Clusters, mcName: NamespacedName, n: NamespacedName,
                                              steps: seq<FleetStep>)
    requires Fleet(clusters, mcName) && Waiter(clusters, mcName, n) && Waits(clusters, mcName, n, steps)
    ensures RunsOf(n, steps) <= Lacking(clusters[mcName], clusters[n])
    ensures Lacking(clusters[mcName], clusters[n]) <= |AllowedLinks(SiteOf(clusters[mcName], clusters[n]))| + 1
    decreases |steps|
  {
    LackingAtMost(clusters[mcName], clusters[n]);
    if steps != [] {
      var after := AfterStep(clusters, mcName, steps[0]);
      if steps[0].Run? {
        RunKeepsFleet(clusters, mcName, steps[0].req, steps[0].input);
        if steps[0].req == n {
          OwnRunProgresses(clusters, mcName, n, steps[0].input);
        } else {
          OthersFollow(clusters, mcName, steps[0].req, steps[0].input, n);
          LackingPersists(Edited(clusters[mcName], clusters[n], None), after[mcName], after[n]);
        }
      } else {
        LackingPersists(Edited(clusters[mcName], clusters[n], None), after[mcName], after[n]);
      }
      WaitingAmongOthers(after, mcName, n, steps[1..]);
    }
  }
}
