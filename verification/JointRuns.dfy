/** Both controllers and their environment as one state machine: whole-run safety of the gate. */
module JointRuns {
  import opened Types
  import opened Conditions
  import opened EndpointLists
  import opened ServiceSpec
  import opened ClusterObjects
  import opened ControllerSpec
  import opened KubeadmControlPlane
  import AzureApi

  datatype Config = Config(mcName: NamespacedName, gates: seq<string>)

  datatype Step =
    | RunAzureCluster(req: NamespacedName, input: RunInput)
    | RunGate(kcp: NamespacedName, stored: bool)
    | Environment

  function AfterRun(c: Config, w: World, req: NamespacedName, input: RunInput): World {
    w.(clusters := ReconcileStep(w.clusters, c.mcName, req, input).0)
  }

  ghost predicate Next(c: Config, w: World, s: Step, w': World) {
    match s
    case RunAzureCluster(req, input) => w' == AfterRun(c, w, req, input)
    case RunGate(kcp, stored) => w' == AfterGate(w, c.mcName, c.gates, kcp, stored)
    case Environment => NobodyElseMarks(w, w')
  }

  ghost predicate IsRun(c: Config, worlds: seq<World>, steps: seq<Step>) {
    |worlds| == |steps| + 1 && forall i :: 0 <= i < |steps| ==> Next(c, worlds[i], steps[i], worlds[i + 1])
  }

  // ---- the promise behind the condition

  predicate MarkedReady(c: AzureCluster) {
    Condition(GS_PRIVATE_LINKS_READY, ConditionTrue) in c.conditions
  }

  predicate Annotated(c: AzureCluster) {
    MC_INGRESS_ANNOTATION in c.annotations && (c.lbType.Internal? ==> API_SERVER_ANNOTATION in c.annotations)
  }

  /** The environment may do anything except set the condition, take an annotation away from a marked
      cluster, or change its load balancer type; clusters it creates are not marked. */
  ghost predicate NobodyElseMarks(w: World, w': World) {
    && WellFormed(w'.clusters)
    && forall n :: n in w'.clusters && MarkedReady(w'.clusters[n]) ==>
         && n in w.clusters && MarkedReady(w.clusters[n])
         && w'.clusters[n].lbType == w.clusters[n].lbType
         && (MC_INGRESS_ANNOTATION in w.clusters[n].annotations ==> MC_INGRESS_ANNOTATION in w'.clusters[n].annotations)
         && (API_SERVER_ANNOTATION in w.clusters[n].annotations ==> API_SERVER_ANNOTATION in w'.clusters[n].annotations)
  }

  ghost predicate Promise(clusters: Clusters) {
    WellFormed(clusters) && forall n :: n in clusters && MarkedReady(clusters[n]) ==> Annotated(clusters[n])
  }

  lemma ApiAnnotates(site: Site, ready: bool, ip: IpOracle, list: Endpoints, annotations: map<string, string>)
    ensures annotations.Keys <= ReconcileMcToWcApi(site, ready, ip, list, annotations).annotations.Keys
    ensures ReconcileMcToWcApi(site, ready, ip, list, annotations).failure.None? ==>
              API_SERVER_ANNOTATION in ReconcileMcToWcApi(site, ready, ip, list, annotations).annotations
  {
    EnsureNotes(WantedSpecs(site), API_SERVER_ANNOTATION, ip, list, annotations);
    EnsureFails(WantedSpecs(site), API_SERVER_ANNOTATION, ip, list, annotations);
  }

  lemma McToWcAnnotates(mc: AzureCluster, wc: AzureCluster, ip: IpOracle)
    ensures wc.annotations.Keys <= McToWc(mc, wc, ip).annotations.Keys
    ensures McToWc(mc, wc, ip).failure.None? && wc.lbType.Internal? ==>
            API_SERVER_ANNOTATION in McToWc(mc, wc, ip).annotations
  {
    ApiAnnotates(SiteOf(mc, wc), IsTrue(wc.conditions, PRIVATE_LINKS_READY), ip, EndpointsOf(mc), wc.annotations);
  }

  lemma WcToMcAnnotates(mc: AzureCluster, wc: AzureCluster, ip: IpOracle, annotations: map<string, string>)
    ensures var r := WcToMc(mc, wc, ip, annotations);
            && (forall key :: key in annotations ==> key in r.ensured.annotations)
            && (r.conditions != wc.conditions ==>
                r.ensured.failure.None? && MC_INGRESS_ANNOTATION in r.ensured.annotations)
  {
    if mc.lbType.Internal? {
      var specs := [GatewaySpec(wc.info, mc.info)];
      EnsureNotes(specs, MC_INGRESS_ANNOTATION, ip, EndpointsOf(wc), annotations);
      EnsureFails(specs, MC_INGRESS_ANNOTATION, ip, EndpointsOf(wc), annotations);
    }
  }

  /** A live run marks a cluster only together with the annotations. */
  lemma LiveKeepsPromise(mc: AzureCluster, wc: AzureCluster, mcIp: IpOracle, wcIp: IpOracle)
    requires MarkedReady(wc) ==> Annotated(wc)
    ensures MarkedReady(Live(mc, wc, mcIp, wcIp).wc) ==> Annotated(Live(mc, wc, mcIp, wcIp).wc)
  {
    var api := McToWc(mc, wc, mcIp);
    McToWcAnnotates(mc, wc, mcIp);
    WcToMcAnnotates(mc, wc, wcIp, api.annotations);
  }

  lemma PatchKeepsPromise(clusters: Clusters, c: AzureCluster, stored: bool)
    requires Promise(clusters) && (MarkedReady(c) ==> Annotated(c))
    ensures Promise(Patched(clusters, c, stored))
  {
  }

  lemma BodyKeepsPromise(mc: AzureCluster, wc: AzureCluster, input: RunInput)
    requires input.mcClient.Ok? && input.wcClient.Ok?
    requires MarkedReady(wc) ==> Annotated(wc)
    requires MarkedReady(mc) ==> Annotated(mc)
    ensures var e := Body(mc, wc, input.mcClient.value, input.wcClient.value);
            (MarkedReady(e.mc) ==> Annotated(e.mc)) && (MarkedReady(e.wc) ==> Annotated(e.wc))
  {
    if !wc.deleting {
      LiveKeepsPromise(mc, wc, AzureApi.OracleOf(input.mcClient.value, mc.info.resourceGroup),
                       AzureApi.OracleOf(input.wcClient.value, wc.info.resourceGroup));
    }
  }

  lemma RunKeepsPromise(clusters: Clusters, mcName: NamespacedName, req: NamespacedName, input: RunInput)
    requires Promise(clusters)
    ensures Promise(ReconcileStep(clusters, mcName, req, input).0)
  {
    if req in clusters && req != mcName && mcName in clusters {
      var wc, mc := clusters[req], clusters[mcName];
      PatchKeepsPromise(clusters, wc, input.wcPatch);
      PatchKeepsPromise(clusters, mc, input.mcPatch);
      PatchKeepsPromise(Patched(clusters, mc, input.mcPatch), wc, input.wcPatch);
      if input.mcClient.Ok? && input.wcClient.Ok? {
        var e := Body(mc, wc, input.mcClient.value, input.wcClient.value);
        BodyKeepsPromise(mc, wc, input);
        PatchKeepsPromise(clusters, e.mc, input.mcPatch);
        PatchKeepsPromise(Patched(clusters, e.mc, input.mcPatch), e.wc, input.wcPatch);
      }
    }
  }

  lemma NextKeepsPromise(c: Config, w: World, s: Step, w': World)
    requires Promise(w.clusters) && Next(c, w, s, w')
    ensures Promise(w'.clusters)
  {
    match s {
      case RunAzureCluster(req, input) => RunKeepsPromise(w.clusters, c.mcName, req, input);
      case RunGate(kcp, stored) =>
      case Environment => EnvironmentKeepsPromise(w, w');
    }
  }

  /** In every state of every run, whatever patches are refused, a cluster marked ready has its annotations. */
  lemma {:induction false} PromiseOverRuns(c: Config, worlds: seq<World>, steps: seq<Step>, i: nat)
    requires IsRun(c, worlds, steps) && i < |worlds| && Promise(worlds[0].clusters)
    ensures Promise(worlds[i].clusters)
  {
    if i > 0 {
      PromiseOverRuns(c, worlds, steps, i - 1);
      assert Next(c, worlds[i - 1], steps[i - 1], worlds[i - 1 + 1]);
      NextKeepsPromise(c, worlds[i - 1], steps[i - 1], worlds[i]);
    }
  }

  lemma EnvironmentKeepsPromise(w: World, w': World)
    requires Promise(w.clusters) && NobodyElseMarks(w, w')
    ensures Promise(w'.clusters)
  {
    forall n | n in w'.clusters && MarkedReady(w'.clusters[n]) ensures Annotated(w'.clusters[n]) {
      assert Annotated(w.clusters[n]);
    }
  }

  /** With the condition among the gates, the operator unpauses a control plane only when its AzureCluster
      has the ingress IP and, if its API server is internal, the API server IP. */
  lemma UnpausedOnlyWithAddresses(c: Config, worlds: seq<World>, steps: seq<Step>, i: nat, kcp: NamespacedName)
    requires IsRun(c, worlds, steps) && Promise(worlds[0].clusters)
    requires GS_PRIVATE_LINKS_READY in c.gates
    requires i < |steps| && !steps[i].Environment?
    requires Paused(worlds[i], kcp) && !Paused(worlds[i + 1], kcp)
    ensures Reaches(worlds[i], c.mcName, c.gates, kcp).Checks?
    ensures Annotated(worlds[i].clusters[Reaches(worlds[i], c.mcName, c.gates, kcp).infra])
  {
    var w := worlds[i];
    assert Next(c, w, steps[i], worlds[i + 1]);
    PromiseOverRuns(c, worlds, steps, i);
    var conditions := w.clusters[Reaches(w, c.mcName, c.gates, kcp).infra].conditions;
    NothingUnmet(conditions, c.gates);
    FirstIsFirst(conditions, GS_PRIVATE_LINKS_READY);
  }

  // ---- hands off

  /** No run of either controller touches a control plane the operator must leave alone, as long as the
      environment lets it be one. */
  lemma {:induction false} HandsOffOverRuns(c: Config, worlds: seq<World>, steps: seq<Step>, kcp: NamespacedName,
                                            i: nat)
    requires IsRun(c, worlds, steps) && i < |worlds| && HandsOff(worlds[0], kcp)
    requires forall j :: 0 <= j < |steps| && steps[j].Environment? ==>
               (HandsOff(worlds[j], kcp) ==>
                   HandsOff(worlds[j + 1], kcp) && Paused(worlds[j + 1], kcp) == Paused(worlds[j], kcp))
    ensures HandsOff(worlds[i], kcp) && Paused(worlds[i], kcp) == Paused(worlds[0], kcp)
  {
    if i > 0 {
      HandsOffOverRuns(c, worlds, steps, kcp, i - 1);
      assert Next(c, worlds[i - 1], steps[i - 1], worlds[i - 1 + 1]);
      if steps[i - 1].RunGate? {
        HandsOffGate(worlds[i - 1], c.mcName, c.gates, steps[i - 1].kcp, steps[i - 1].stored, kcp);
      }
    }
  }
}
