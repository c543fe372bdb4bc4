/** The finalizer of a workload cluster guards its endpoints in the management cluster. */
module FinalizerGuard {
  import opened Types
  import opened Sequences
  import opened Conditions
  import opened EndpointLists
  import opened ServiceSpec
  import opened Pruning
  import opened Reconciliation
  import opened Isolation
  import opened ClusterObjects
  import opened ControllerSpec
  import opened ReconcileFacts
  import opened KubeadmControlPlane
  import opened JointRuns
  import AzureApi

  predicate Holds(wc: AzureCluster) {
    AZURE_CLUSTER_FINALIZER in wc.finalizers
  }

  // ---- one cluster, one run: which refused patches break the guard

  /** An endpoint with a name wanted for the workload cluster stands in the list only while the cluster holds
      the finalizer. */
  predicate Guarded(mc: AzureCluster, wc: AzureCluster) {
    wc.lbType.Internal? && (exists e :: e in EndpointsOf(mc) && Wants(SiteOf(mc, wc), e.name)) ==> Holds(wc)
  }

  function Stored(before: AzureCluster, after: AzureCluster, stored: bool): AzureCluster {
    if stored then after else before
  }

  lemma HoldsAfterLive(mc: AzureCluster, wc: AzureCluster, mcIp: IpOracle, wcIp: IpOracle)
    ensures Holds(Live(mc, wc, mcIp, wcIp).wc)
  {
  }

  lemma ReleasedAfterDelete(mc: AzureCluster, wc: AzureCluster)
    ensures !Holds(Deleting(mc, wc).wc)
  {
    FilterMember(IsOther(AZURE_CLUSTER_FINALIZER), wc.finalizers, AZURE_CLUSTER_FINALIZER);
  }

  lemma SiteUnchanged(mc: AzureCluster, list: Endpoints, wc: AzureCluster)
    requires mc.subnets != []
    ensures SiteOf(WithEndpoints(mc, list), wc) == SiteOf(mc, wc) && EndpointsOf(WithEndpoints(mc, list)) == list
  {
    ReadBack(mc, list);
  }

  lemma FirstSpecAdded(site: Site, ip: IpOracle, list: Endpoints)
    requires WantedSpecs(site) != [] && forall e :: e in list ==> !Wants(site, e.name)
    ensures HasName(AddAll(list, Tried(WantedSpecs(site), ip)), WantedSpecs(site)[0].name)
    ensures HasName(Added(list, Tried(WantedSpecs(site), ip)), WantedSpecs(site)[0].name)
  {
    var specs := WantedSpecs(site);
    var tried := Tried(specs, ip);
    var first := specs[0];
    assert Wants(site, first.name);
    TriedStep(specs, ip);
    assert first in tried;
    AddAllCovers(list, tried);
    AddAllAppends(list, tried);
    HasNameSplit(list, Added(list, tried), first.name);
  }

  /** If no wanted name is in the list, a run adds one exactly when it gets as far as the add loop. */
  lemma FirstRunAdds(site: Site, ready: bool, ip: IpOracle, list: Endpoints, annotations: map<string, string>)
    requires forall e :: e in list ==> !Wants(site, e.name)
    ensures (exists e :: e in ReconcileMcToWcApi(site, ready, ip, list, annotations).list && Wants(site, e.name))
       <==> AllowedLinks(site) != [] && ready
  {
    if AllowedLinks(site) != [] && ready {
      var specs := WantedSpecs(site);
      var r := ReconcileMcToWcApi(site, ready, ip, list, annotations);
      EnsureFails(specs, API_SERVER_ANNOTATION, ip, list, annotations);
      EnsureAdds(specs, API_SERVER_ANNOTATION, ip, list, annotations);
      FirstSpecAdded(site, ip, list);
      if r.failure.None? {
        SuccessfulPrune(site, ready, ip, list, annotations);
        HasNameSplit(Prune(site, list), Added(list, specs), specs[0].name);
      }
      var i :| 0 <= i < |r.list| && r.list[i].name == specs[0].name;
      assert r.list[i] in r.list && Wants(site, r.list[i].name);
    }
  }

  /** A live run breaks the guard exactly when the management cluster's patch is stored and the first
      finalizer's patch is refused after endpoints were added. */
  lemma LiveKeepsGuard(mc: AzureCluster, wc: AzureCluster, mcIp: IpOracle, wcIp: IpOracle, mcPatch: bool, wcPatch: bool)
    requires mc.subnets != [] && wc.lbType.Internal? && Guarded(mc, wc)
    ensures Guarded(Stored(mc, Live(mc, wc, mcIp, wcIp).mc, mcPatch), Stored(wc, Live(mc, wc, mcIp, wcIp).wc, wcPatch))
       <==> !(mcPatch && !wcPatch && !Holds(wc)
              && AllowedLinks(SiteOf(mc, wc)) != [] && IsTrue(wc.conditions, PRIVATE_LINKS_READY))
  {
    var e := Live(mc, wc, mcIp, wcIp);
    var api := McToWc(mc, wc, mcIp);
    HoldsAfterLive(mc, wc, mcIp, wcIp);
    SiteUnchanged(mc, api.list, wc);
    if mcPatch && !wcPatch && !Holds(wc) {
      FirstRunAdds(SiteOf(mc, wc), IsTrue(wc.conditions, PRIVATE_LINKS_READY), mcIp, EndpointsOf(mc), wc.annotations);
    }
  }

  function IsWanted(site: Site): PrivateEndpointSpec -> bool {
    (e: PrivateEndpointSpec) => Wants(site, e.name)
  }

  /** A wanted name is in the list, and still is after the deletion's removals if these are made: more
      endpoints bear it than the cluster has links of that name. */
  predicate LeavesWanted(site: Site, list: Endpoints, removed: bool) {
    exists i: nat :: i < |list| && Wants(site, list[i].name) && (removed ==> OutlastsDelete(site, list, i))
  }

  lemma WantedLeft(site: Site, list: Endpoints, removed: bool)
    ensures (exists e :: e in (if removed then DeleteMcToWcApi(site, list) else list) && Wants(site, e.name))
       <==> LeavesWanted(site, list, removed)
  {
    if removed {
      DeleteLeavesNo(site, IsWanted(site), list);
    } else if e :| e in list && Wants(site, e.name) {
      var i: nat :| i < |list| && list[i] == e;
    }
  }

  /** A delete run breaks the guard exactly when the finalizer's removal is stored although wanted names are
      left: the management cluster's patch was refused, or a name had more bearers than links. */
  lemma DeleteKeepsGuard(mc: AzureCluster, wc: AzureCluster, mcPatch: bool, wcPatch: bool)
    requires mc.subnets != [] && wc.lbType.Internal? && Guarded(mc, wc)
    ensures Guarded(Stored(mc, Deleting(mc, wc).mc, mcPatch), Stored(wc, Deleting(mc, wc).wc, wcPatch))
       <==> !(wcPatch && LeavesWanted(SiteOf(mc, wc), EndpointsOf(mc), mcPatch))
  {
    var site, list := SiteOf(mc, wc), EndpointsOf(mc);
    ReleasedAfterDelete(mc, wc);
    SiteUnchanged(mc, DeleteMcToWcApi(site, list), wc);
    WantedLeft(site, list, mcPatch);
    WantedLeft(site, list, false);
  }

  /** Without duplicates only the refused patch is left. */
  lemma LeavesWantedUnique(site: Site, list: Endpoints, removed: bool)
    requires UniqueNames(list)
    ensures LeavesWanted(site, list, removed) <==> !removed && exists x :: x in list && Wants(site, x.name)
  {
    if i: nat :| i < |list| && Wants(site, list[i].name) && (removed ==> OutlastsDelete(site, list, i)) {
      OutlastsDeleteUnique(site, list, i);
      assert list[i] in list;
    }
    if x :| x in list && Wants(site, x.name) {
      var i: nat :| i < |list| && list[i] == x;
    }
  }

  /** The same in the stored clusters; `wc` says which workload cluster and links are meant. */
  predicate GuardedIn(clusters: Clusters, mcName: NamespacedName, wc: AzureCluster) {
    mcName in clusters && wc.lbType.Internal?
    && (exists e :: e in EndpointsOf(clusters[mcName]) && Wants(SiteOf(clusters[mcName], wc), e.name))
    ==> wc.info.id in clusters && Holds(clusters[wc.info.id])
  }

  /** The API server keeps no deleted object without finalizers. */
  predicate Lasting(c: AzureCluster) {
    c.deleting ==> c.finalizers != []
  }

  lemma PairPatched(clusters: Clusters, mc: AzureCluster, mcPatch: bool, wc: AzureCluster, wcPatch: bool)
    requires mc.info.id in clusters && wc.info.id in clusters && mc.info.id != wc.info.id && Lasting(mc)
    ensures var after := Patched(Patched(clusters, mc, mcPatch), wc, wcPatch);
            && mc.info.id in after && after[mc.info.id] == Stored(clusters[mc.info.id], mc, mcPatch)
            && (wc.info.id in after ==> after[wc.info.id] == Stored(clusters[wc.info.id], wc, wcPatch))
            && (wc.info.id !in after <==> wcPatch && wc.deleting && wc.finalizers == [])
  {
  }

  /** What a run that gets to its body stores. */
  lemma RunStores(clusters: Clusters, mcName: NamespacedName, req: NamespacedName, input: RunInput)
    requires WellFormed(clusters) && GetsToBody(clusters, mcName, req, input) && Lasting(clusters[mcName])
    ensures var e := Body(clusters[mcName], clusters[req], input.mcClient.value, input.wcClient.value);
            var after := ReconcileStep(clusters, mcName, req, input).0;
            && mcName in after && after[mcName] == Stored(clusters[mcName], e.mc, input.mcPatch)
            && (req in after ==> after[req] == Stored(clusters[req], e.wc, input.wcPatch))
            && (req !in after <==> input.wcPatch && e.wc.deleting && e.wc.finalizers == [])
            && SiteOf(after[mcName], clusters[req]) == SiteOf(clusters[mcName], clusters[req])
  {
    var e := Body(clusters[mcName], clusters[req], input.mcClient.value, input.wcClient.value);
    BodyFrame(clusters[mcName], clusters[req], input.mcClient.value, input.wcClient.value);
    PairPatched(clusters, e.mc, input.mcPatch, e.wc, input.wcPatch);
  }

  /** On stored clusters: a live run breaks the guard exactly when the management cluster's patch is stored,
      the patch with the first finalizer is refused and the add loop was reached. */
  lemma LiveRunKeepsGuard(clusters: Clusters, mcName: NamespacedName, req: NamespacedName, input: RunInput)
    requires WellFormed(clusters) && GetsToBody(clusters, mcName, req, input) && Lasting(clusters[mcName])
    requires !clusters[req].deleting && clusters[req].lbType.Internal? && GuardedIn(clusters, mcName, clusters[req])
    ensures GuardedIn(ReconcileStep(clusters, mcName, req, input).0, mcName, clusters[req])
       <==> !(input.mcPatch && !input.wcPatch && !Holds(clusters[req])
              && AllowedLinks(SiteOf(clusters[mcName], clusters[req])) != []
              && IsTrue(clusters[req].conditions, PRIVATE_LINKS_READY))
  {
    var mc, wc := clusters[mcName], clusters[req];
    RunStores(clusters, mcName, req, input);
    LiveKeepsGuard(mc, wc, AzureApi.OracleOf(input.mcClient.value, mc.info.resourceGroup),
                   AzureApi.OracleOf(input.wcClient.value, wc.info.resourceGroup), input.mcPatch, input.wcPatch);
  }

  /** A delete run breaks it exactly when the release is stored although wanted names are left, because the
      management cluster's patch is refused or because a name has more bearers than links. */
  lemma DeleteRunKeepsGuard(clusters: Clusters, mcName: NamespacedName, req: NamespacedName, input: RunInput)
    requires WellFormed(clusters) && GetsToBody(clusters, mcName, req, input) && Lasting(clusters[mcName])
    requires clusters[req].deleting && clusters[req].lbType.Internal? && GuardedIn(clusters, mcName, clusters[req])
    ensures GuardedIn(ReconcileStep(clusters, mcName, req, input).0, mcName, clusters[req])
       <==> !(input.wcPatch && LeavesWanted(SiteOf(clusters[mcName], clusters[req]), EndpointsOf(clusters[mcName]),
                                            input.mcPatch))
  {
    var mc, wc := clusters[mcName], clusters[req];
    RunStores(clusters, mcName, req, input);
    ReleasedAfterDelete(mc, wc);
    DeleteKeepsGuard(mc, wc, input.mcPatch, input.wcPatch);
  }

  /** Deletion removes, by name, every endpoint that leads to the workload cluster; for a cluster with a
      public API server it removes none. */
  predicate DeletionReachesAll(mc: AzureCluster, wc: AzureCluster) {
    forall i: nat :: i < |EndpointsOf(mc)| && ToCluster(wc.info, EndpointsOf(mc)[i]) ==>
      wc.lbType.Internal? && !OutlastsDelete(SiteOf(mc, wc), EndpointsOf(mc), i)
  }

  /** Once a delete run's list is stored, no endpoint that leads to the cluster is left, if and only if the
      names of the links the cluster still had reach all of them. */
  lemma ReleaseLeavesNothing(clusters: Clusters, mcName: NamespacedName, req: NamespacedName, input: RunInput)
    requires WellFormed(clusters) && GetsToBody(clusters, mcName, req, input) && Lasting(clusters[mcName])
    requires clusters[req].deleting && input.mcPatch
    ensures mcName in ReconcileStep(clusters, mcName, req, input).0
    ensures (forall e :: e in EndpointsOf(ReconcileStep(clusters, mcName, req, input).0[mcName]) ==>
               !ToCluster(clusters[req].info, e))
       <==> DeletionReachesAll(clusters[mcName], clusters[req])
  {
    var mc, wc := clusters[mcName], clusters[req];
    var site, list := SiteOf(mc, wc), EndpointsOf(mc);
    RunStores(clusters, mcName, req, input);
    if wc.lbType.Internal? {
      DeleteLeavesNothing(site, list);
      SiteUnchanged(mc, DeleteMcToWcApi(site, list), wc);
    } else {
      assert forall i :: 0 <= i < |list| ==> list[i] in list;
    }
  }

  /** A deleted cluster's finalizer is released exactly by a run that gets past all checks, subnets and
      Azure clients of both clusters included, and whose workload cluster patch is stored; the cluster then
      disappears exactly if nobody else holds a finalizer. */
  lemma ReleaseExactly(clusters: Clusters, mcName: NamespacedName, req: NamespacedName, input: RunInput)
    requires WellFormed(clusters) && req in clusters && clusters[req].deleting && Holds(clusters[req])
    ensures (req in ReconcileStep(clusters, mcName, req, input).0 ==>
            !Holds(ReconcileStep(clusters, mcName, req, input).0[req]))
       <==> GetsToBody(clusters, mcName, req, input) && input.wcPatch
    ensures req !in ReconcileStep(clusters, mcName, req, input).0
       <==> GetsToBody(clusters, mcName, req, input) && input.wcPatch
            && forall f :: f in clusters[req].finalizers ==> f == AZURE_CLUSTER_FINALIZER
  {
    FilterNone(IsOther(AZURE_CLUSTER_FINALIZER), clusters[req].finalizers);
    if GetsToBody(clusters, mcName, req, input) {
      ReleasedAfterDelete(clusters[mcName], clusters[req]);
    }
  }

  // ---- many clusters, whole runs

  predicate HolderOf(clusters: Clusters, mcName: NamespacedName, n: NamespacedName, name: string) {
    && mcName in clusters && n in clusters && n != mcName
    && clusters[n].lbType.Internal? && Holds(clusters[n])
    && Wants(SiteOf(clusters[mcName], clusters[n]), name)
  }

  /** The management cluster's list has no duplicates, and each of its names is one of `base`, kept by
      others, or wanted for an internal workload cluster that holds the finalizer. */
  ghost predicate Guard(clusters: Clusters, mcName: NamespacedName, base: set<string>) {
    && WellFormed(clusters)
    && (mcName in clusters ==>
          && UniqueNames(EndpointsOf(clusters[mcName]))
          && forall e :: e in EndpointsOf(clusters[mcName]) ==> Covered(clusters, mcName, base, e.name))
  }

  ghost predicate Covered(clusters: Clusters, mcName: NamespacedName, base: set<string>, name: string) {
    name in base || exists n :: HolderOf(clusters, mcName, n, name)
  }

  /** The environment may create and change clusters as it likes, but it leaves the operator's finalizers,
      the private links and load balancer types of their holders and the identity of the management
      cluster alone, and adds no endpoint outside `base`. */
  ghost predicate RespectsGuard(w: World, w': World, mcName: NamespacedName, base: set<string>) {
    && WellFormed(w'.clusters)
    && (mcName in w'.clusters ==>
          && mcName in w.clusters && w'.clusters[mcName].info == w.clusters[mcName].info
          && UniqueNames(EndpointsOf(w'.clusters[mcName]))
          && forall e :: e in EndpointsOf(w'.clusters[mcName]) ==>
              e.name in base || HasName(EndpointsOf(w.clusters[mcName]), e.name))
    && (forall n :: n in w.clusters && Holds(w.clusters[n]) ==>
          && n in w'.clusters && Holds(w'.clusters[n])
          && w'.clusters[n].info == w.clusters[n].info
          && w'.clusters[n].lbType == w.clusters[n].lbType
          && w'.clusters[n].privateLinks == w.clusters[n].privateLinks)
  }

  ghost predicate BothStored(s: Step) {
    s.RunAzureCluster? ==> s.input.mcPatch && s.input.wcPatch
  }

  lemma EnvironmentKeepsGuard(w: World, w': World, mcName: NamespacedName, base: set<string>)
    requires Guard(w.clusters, mcName, base) && RespectsGuard(w, w', mcName, base)
    ensures Guard(w'.clusters, mcName, base)
  {
    if mcName in w'.clusters {
      var list := EndpointsOf(w.clusters[mcName]);
      forall e | e in EndpointsOf(w'.clusters[mcName]) ensures Covered(w'.clusters, mcName, base, e.name) {
        if e.name !in base {
          var i :| 0 <= i < |list| && list[i].name == e.name;
          assert list[i] in list;
          var n :| HolderOf(w.clusters, mcName, n, e.name);
          assert HolderOf(w'.clusters, mcName, n, e.name);
        }
      }
    }
  }

  /** Where the names of the list come from after a live run. */
  lemma LiveNames(mc: AzureCluster, wc: AzureCluster, ip: IpOracle)
    requires UniqueNames(EndpointsOf(mc))
    ensures UniqueNames(McToWc(mc, wc, ip).list)
    ensures forall e :: e in McToWc(mc, wc, ip).list ==>
              e in EndpointsOf(mc) || (wc.lbType.Internal? && Wants(SiteOf(mc, wc), e.name))
  {
    if wc.lbType.Internal? {
      var site := SiteOf(mc, wc);
      var list := EndpointsOf(mc);
      var tried := Tried(WantedSpecs(site), ip);
      var ensured := EnsureEndpoints(WantedSpecs(site), API_SERVER_ANNOTATION, ip, list, wc.annotations).list;
      EnsureAdds(WantedSpecs(site), API_SERVER_ANNOTATION, ip, list, wc.annotations);
      AddAllUnique(list, tried);
      AddAllAppends(list, tried);
      AddedMembers(list, tried);
      PruneUnique(site, ensured);
      forall e | e in ensured ensures e in list || Wants(site, e.name) {
        if e !in list {
          assert e in WantedSpecs(site);
          var i :| 0 <= i < |WantedSpecs(site)| && WantedSpecs(site)[i] == e;
        }
      }
    }
  }

  /** The effect on the stored clusters of a run that gets to its body, with both patches stored. */
  function BothPatched(clusters: Clusters, e: Edited): Clusters {
    Patched(Patched(clusters, e.mc, true), e.wc, true)
  }

  lemma PatchedBoth(clusters: Clusters, mcName: NamespacedName, req: NamespacedName, e: Edited)
    requires e.mc.info.id == mcName && e.wc.info.id == req && !e.mc.deleting && !e.wc.deleting
    ensures BothPatched(clusters, e) == clusters[mcName := e.mc][req := e.wc]
  {
  }

  lemma LiveCovered(clusters: Clusters, mcName: NamespacedName, req: NamespacedName, base: set<string>, e: Edited,
                    name: string)
    requires mcName in clusters && req in clusters && req != mcName
    requires e.mc.info == clusters[mcName].info && e.wc.info == clusters[req].info
    requires e.wc.lbType == clusters[req].lbType && e.wc.privateLinks == clusters[req].privateLinks && Holds(e.wc)
    requires Covered(clusters, mcName, base, name)
             || (e.wc.lbType.Internal? && Wants(SiteOf(clusters[mcName], clusters[req]), name))
    ensures Covered(clusters[mcName := e.mc][req := e.wc], mcName, base, name)
  {
    var after := clusters[mcName := e.mc][req := e.wc];
    assert SiteOf(after[mcName], after[req]) == SiteOf(clusters[mcName], clusters[req]);
    if Covered(clusters, mcName, base, name) {
      CoverageSurvives(clusters, after, mcName, base, name);
    } else {
      assert HolderOf(after, mcName, req, name);
    }
  }

  lemma LiveStepKeepsGuard(clusters: Clusters, mcName: NamespacedName, req: NamespacedName, base: set<string>,
                           mcIp: IpOracle, wcIp: IpOracle)
    requires Guard(clusters, mcName, base) && req in clusters && mcName in clusters && req != mcName
    requires clusters[mcName].subnets != [] && !clusters[mcName].deleting && !clusters[req].deleting
    ensures Guard(BothPatched(clusters, Live(clusters[mcName], clusters[req], mcIp, wcIp)), mcName, base)
  {
    var mc, wc := clusters[mcName], clusters[req];
    var e := Live(mc, wc, mcIp, wcIp);
    var list := McToWc(mc, wc, mcIp).list;
    LiveNames(mc, wc, mcIp);
    SiteUnchanged(mc, list, wc);
    PatchedBoth(clusters, mcName, req, e);
    assert EndpointsOf(e.mc) == list;
    forall x | x in list ensures Covered(BothPatched(clusters, e), mcName, base, x.name) {
      LiveCovered(clusters, mcName, req, base, e, x.name);
    }
  }

  /** Coverage survives a step that keeps the finalizers, links and types of all holders of the name. */
  lemma CoverageSurvives(clusters: Clusters, after: Clusters, mcName: NamespacedName, base: set<string>, name: string)
    requires Covered(clusters, mcName, base, name) && mcName in clusters && mcName in after
    requires after[mcName].info == clusters[mcName].info
    requires forall n :: HolderOf(clusters, mcName, n, name) ==>
               n in after && Holds(after[n]) && after[n].info == clusters[n].info
               && after[n].lbType == clusters[n].lbType && after[n].privateLinks == clusters[n].privateLinks
    ensures Covered(after, mcName, base, name)
  {
    if name !in base {
      var n :| HolderOf(clusters, mcName, n, name);
      assert HolderOf(after, mcName, n, name);
    }
  }

  /** The stored clusters after a delete run: the management cluster has the given endpoints, the others are as before.
      */
  ghost predicate AfterDelete(clusters: Clusters, after: Clusters, mcName: NamespacedName, req: NamespacedName,
                              list: Endpoints) {
    && WellFormed(after) && mcName in clusters && mcName in after
    && after[mcName].info == clusters[mcName].info && EndpointsOf(after[mcName]) == list
    && forall n :: n in clusters && n != mcName && n != req ==> n in after && after[n] == clusters[n]
  }

  lemma BothPatchedLeaves(clusters: Clusters, mcName: NamespacedName, req: NamespacedName, e: Edited)
    requires WellFormed(clusters) && req in clusters && mcName in clusters && req != mcName
    requires e.mc.info == clusters[mcName].info && e.wc.info == clusters[req].info && !e.mc.deleting
    ensures AfterDelete(clusters, BothPatched(clusters, e), mcName, req, EndpointsOf(e.mc))
  {
  }

  lemma DeletingEdits(mc: AzureCluster, wc: AzureCluster)
    requires mc.subnets != []
    ensures Deleting(mc, wc).mc.info == mc.info && Deleting(mc, wc).wc.info == wc.info
    ensures Deleting(mc, wc).mc.deleting == mc.deleting
    ensures EndpointsOf(Deleting(mc, wc).mc)
         == if wc.lbType.Internal? then DeleteMcToWcApi(SiteOf(mc, wc), EndpointsOf(mc)) else EndpointsOf(mc)
  {
    SiteUnchanged(mc, DeleteMcToWcApi(SiteOf(mc, wc), EndpointsOf(mc)), wc);
  }

  lemma DeleteCovered(clusters: Clusters, after: Clusters, mcName: NamespacedName, req: NamespacedName, list: Endpoints,
                      base: set<string>, name: string)
    requires req in clusters && AfterDelete(clusters, after, mcName, req, list)
    requires Covered(clusters, mcName, base, name)
    requires !(clusters[req].lbType.Internal? && Wants(SiteOf(clusters[mcName], clusters[req]), name))
    ensures Covered(after, mcName, base, name)
  {
    CoverageSurvives(clusters, after, mcName, base, name);
  }

  lemma DeleteStepKeepsGuard(clusters: Clusters, mcName: NamespacedName, req: NamespacedName, base: set<string>)
    requires Guard(clusters, mcName, base) && req in clusters && mcName in clusters && req != mcName
    requires clusters[mcName].subnets != [] && !clusters[mcName].deleting
    ensures Guard(BothPatched(clusters, Deleting(clusters[mcName], clusters[req])), mcName, base)
  {
    var site, list := SiteOf(clusters[mcName], clusters[req]), EndpointsOf(clusters[mcName]);
    var e := Deleting(clusters[mcName], clusters[req]);
    DeletingEdits(clusters[mcName], clusters[req]);
    BothPatchedLeaves(clusters, mcName, req, e);
    RemovedStayUnique(list, Names(WantedSpecs(site)));
    DeleteLeavesNone(site, list);
    forall x | x in EndpointsOf(e.mc) ensures Covered(BothPatched(clusters, e), mcName, base, x.name) {
      DeleteCovered(clusters, BothPatched(clusters, e), mcName, req, EndpointsOf(e.mc), base, x.name);
    }
  }

  lemma RemovedStayUnique(list: Endpoints, names: seq<string>)
    requires UniqueNames(list)
    ensures UniqueNames(RemoveAll(list, names))
  {
    RemoveAllRightmost(list, names);
    SurvivorsMembers(list, multiset(names));
  }

  /** Early exits patch the objects as they were read. */
  lemma PatchUnedited(clusters: Clusters, c: AzureCluster, stored: bool)
    requires c.info.id in clusters && clusters[c.info.id] == c && Lasting(c)
    ensures Patched(clusters, c, stored) == clusters
  {
  }

  /** The API server keeps no deleted object without finalizers, and the management cluster is not being deleted. */
  ghost predicate Settled(clusters: Clusters, mcName: NamespacedName) {
    && (forall n :: n in clusters ==> Lasting(clusters[n]))
    && (mcName in clusters ==> !clusters[mcName].deleting)
  }

  lemma PatchSettles(clusters: Clusters, mcName: NamespacedName, c: AzureCluster, stored: bool)
    requires Settled(clusters, mcName) && (c.info.id == mcName ==> !c.deleting)
    ensures Settled(Patched(clusters, c, stored), mcName)
  {
  }

  lemma StepSettles(clusters: Clusters, mcName: NamespacedName, req: NamespacedName, input: RunInput)
    requires WellFormed(clusters) && Settled(clusters, mcName)
    ensures Settled(ReconcileStep(clusters, mcName, req, input).0, mcName)
  {
    if req in clusters && req != mcName && mcName in clusters {
      var wc, mc := clusters[req], clusters[mcName];
      PatchSettles(clusters, mcName, wc, input.wcPatch);
      PatchSettles(clusters, mcName, mc, input.mcPatch);
      PatchSettles(Patched(clusters, mc, input.mcPatch), mcName, wc, input.wcPatch);
      if input.mcClient.Ok? && input.wcClient.Ok? {
        var e := Body(mc, wc, input.mcClient.value, input.wcClient.value);
        PatchSettles(clusters, mcName, e.mc, input.mcPatch);
        PatchSettles(Patched(clusters, e.mc, input.mcPatch), mcName, e.wc, input.wcPatch);
      }
    }
  }

  lemma StepKeepsGuard(clusters: Clusters, mcName: NamespacedName, req: NamespacedName, input: RunInput,
                       base: set<string>)
    requires Guard(clusters, mcName, base) && Settled(clusters, mcName) && input.mcPatch && input.wcPatch
    ensures Guard(ReconcileStep(clusters, mcName, req, input).0, mcName, base)
  {
    if req in clusters && req != mcName && mcName in clusters {
      var wc, mc := clusters[req], clusters[mcName];
      PatchUnedited(clusters, wc, true);
      PatchUnedited(clusters, mc, true);
      if mc.subnets != [] && input.mcClient.Ok? && input.wcClient.Ok? {
        if wc.deleting {
          DeleteStepKeepsGuard(clusters, mcName, req, base);
        } else {
          LiveStepKeepsGuard(clusters, mcName, req, base,
                             AzureApi.OracleOf(input.mcClient.value, mc.info.resourceGroup),
                             AzureApi.OracleOf(input.wcClient.value, wc.info.resourceGroup));
        }
      }
    }
  }

  /** A run of the joint machine in which all patches are stored and the environment respects the guard. */
  ghost predicate GuardedRun(c: Config, worlds: seq<World>, steps: seq<Step>, base: set<string>) {
    && |worlds| == |steps| + 1
    && forall i :: 0 <= i < |steps| ==> GuardedStep(c, worlds[i], steps[i], worlds[i + 1], base)
  }

  ghost predicate GuardedStep(c: Config, w: World, s: Step, w': World, base: set<string>) {
    if s.Environment? then RespectsGuard(w, w', c.mcName, base) && Settled(w'.clusters, c.mcName)
    else Next(c, w, s, w') && BothStored(s)
  }

  /** In every state of such a run, an endpoint of the management cluster is either someone else's or
      wanted for a workload cluster that still holds the finalizer. */
  lemma {:induction false} GuardOverRuns(c: Config, worlds: seq<World>, steps: seq<Step>, base: set<string>, i: nat)
    requires GuardedRun(c, worlds, steps, base) && i < |worlds|
    requires Guard(worlds[0].clusters, c.mcName, base) && Settled(worlds[0].clusters, c.mcName)
    ensures Guard(worlds[i].clusters, c.mcName, base) && Settled(worlds[i].clusters, c.mcName)
  {
    if i > 0 {
      GuardOverRuns(c, worlds, steps, base, i - 1);
      var w, s, w' := worlds[i - 1], steps[i - 1], worlds[i];
      assert GuardedStep(c, worlds[i - 1], s, worlds[i - 1 + 1], base);
      match s {
        case RunAzureCluster(req, input) =>
          StepKeepsGuard(w.clusters, c.mcName, req, input, base);
          StepSettles(w.clusters, c.mcName, req, input);
        case RunGate(kcp, stored) =>
        case Environment =>
          EnvironmentKeepsGuard(w, w', c.mcName, base);
      }
    }
  }

  /** Once a workload cluster has released its finalizer, none of its names is left, unless others keep
      that name or another cluster wants it too. */
  lemma ReleasedMeansGone(c: Config, worlds: seq<World>, steps: seq<Step>, base: set<string>, i: nat, wc: AzureCluster,
                          name: string)
    requires GuardedRun(c, worlds, steps, base) && i < |worlds|
    requires Guard(worlds[0].clusters, c.mcName, base) && Settled(worlds[0].clusters, c.mcName)
    requires c.mcName in worlds[i].clusters && Wants(SiteOf(worlds[i].clusters[c.mcName], wc), name)
    requires wc.info.id in worlds[i].clusters ==> !Holds(worlds[i].clusters[wc.info.id])
    requires name !in base
    requires forall n ::
               n in worlds[i].clusters && n != wc.info.id && n != c.mcName && worlds[i].clusters[n].lbType.Internal? ==>
               !Wants(SiteOf(worlds[i].clusters[c.mcName], worlds[i].clusters[n]), name)
    ensures !HasName(EndpointsOf(worlds[i].clusters[c.mcName]), name)
  {
    GuardOverRuns(c, worlds, steps, base, i);
    var clusters := worlds[i].clusters;
    var list := EndpointsOf(clusters[c.mcName]);
    assert forall k :: 0 <= k < |list| ==> list[k] in list;
  }
}
