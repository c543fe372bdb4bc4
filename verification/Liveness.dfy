/** Progress end to end: from a new workload cluster to an unpaused control plane. */
module Liveness {
  import opened Types
  import opened Sequences
  import opened Conditions
  import opened EndpointLists
  import opened ServiceSpec
  import opened Reconciliation
  import opened Convergence
  import opened ClusterObjects
  import opened ControllerSpec
  import opened ReconcileFacts
  import opened KubeadmControlPlane
  import PrivateLinks

  // ---- the condition over repeated marking

  function MarkTimes(n: nat, conditions: seq<Condition>): seq<Condition> {
    if n == 0 then conditions else MarkReady(MarkTimes(n - 1, conditions))
  }

  function Copies(n: nat): seq<Condition> {
    if n == 0 then [] else Copies(n - 1) + [Condition(GS_PRIVATE_LINKS_READY, ConditionTrue)]
  }

  /** What any number of successful runs leave of the conditions: a true first condition stays alone, an
      absent one is added once, and one that is present but not true hides every copy appended after it. */
  lemma {:induction false} MarkingOverRuns(n: nat, conditions: seq<Condition>)
    ensures IsTrue(conditions, GS_PRIVATE_LINKS_READY) ==> MarkTimes(n, conditions) == conditions
    ensures First(conditions, GS_PRIVATE_LINKS_READY).None? && n > 0 ==>
            MarkTimes(n, conditions) == conditions + Copies(1)
    ensures First(conditions, GS_PRIVATE_LINKS_READY).Some? && !IsTrue(conditions, GS_PRIVATE_LINKS_READY) ==>
              MarkTimes(n, conditions) == conditions + Copies(n)
              && !IsTrue(MarkTimes(n, conditions), GS_PRIVATE_LINKS_READY)
    ensures n > 0 ==> (IsTrue(MarkTimes(n, conditions), GS_PRIVATE_LINKS_READY)
                       <==> || First(conditions, GS_PRIVATE_LINKS_READY).None?
                            || IsTrue(conditions, GS_PRIVATE_LINKS_READY))
  {
    assert Copies(1) == Copies(0) + [Condition(GS_PRIVATE_LINKS_READY, ConditionTrue)];
    assert conditions + Copies(0) == conditions;
    FirstAppend(conditions, Copies(1), GS_PRIVATE_LINKS_READY);
    FirstAppend(conditions, Copies(n), GS_PRIVATE_LINKS_READY);
    if n > 0 {
      MarkingOverRuns(n - 1, conditions);
      assert conditions + Copies(n)
          == (conditions + Copies(n - 1)) + [Condition(GS_PRIVATE_LINKS_READY, ConditionTrue)];
    }
  }

  function Count(conditions: seq<Condition>): nat {
    |Filter(OfKind(GS_PRIVATE_LINKS_READY), conditions)|
  }

  lemma {:induction false} CopiesCount(n: nat)
    ensures Count(Copies(n)) == n
  {
    if n > 0 {
      CopiesCount(n - 1);
      FilterAppend(OfKind(GS_PRIVATE_LINKS_READY), Copies(n - 1), [Condition(GS_PRIVATE_LINKS_READY, ConditionTrue)]);
    }
  }

  /** One call of ReconcileWcToMcIngress: what it works on and what Azure answers. */
  datatype IngressCall =
    IngressCall(specs: Endpoints, ip: IpOracle, list: Endpoints, annotations: map<string, string>)

  function Called(call: IngressCall, conditions: seq<Condition>): Ingress {
    ReconcileWcToMcIngress(call.specs, call.ip, call.list, call.annotations, conditions)
  }

  function ConditionsAfter(calls: seq<IngressCall>, conditions: seq<Condition>): seq<Condition> {
    if calls == [] then conditions
    else Called(calls[|calls| - 1], ConditionsAfter(calls[..|calls| - 1], conditions)).conditions
  }

  predicate EachHasIP(call: IngressCall) {
    forall e :: e in call.specs ==> call.ip(e.name).Ok?
  }

  /** The calls that find an IP for each of their endpoints. */
  function Successes(calls: seq<IngressCall>): nat {
    if calls == [] then 0
    else Successes(calls[..|calls| - 1]) + (if EachHasIP(calls[|calls| - 1]) then 1 else 0)
  }

  lemma CallMarks(call: IngressCall, conditions: seq<Condition>)
    ensures Called(call, conditions).ensured.failure.None? <==> EachHasIP(call)
    ensures Called(call, conditions).conditions == if EachHasIP(call) then MarkReady(conditions) else conditions
  {
    EnsureFails(call.specs, MC_INGRESS_ANNOTATION, call.ip, call.list, call.annotations);
    var k := FirstFailure(call.specs, call.ip);
    if k < |call.specs| {
      assert call.specs[k] in call.specs;
    }
  }

  lemma {:induction false} CallsMark(calls: seq<IngressCall>, conditions: seq<Condition>)
    ensures ConditionsAfter(calls, conditions) == MarkTimes(Successes(calls), conditions)
  {
    if calls != [] {
      var before, last := calls[..|calls| - 1], calls[|calls| - 1];
      CallsMark(before, conditions);
      CallMarks(last, ConditionsAfter(before, conditions));
    }
  }

  /** Over any sequence of calls, with any endpoints, answers and lists, failing ones included: a true first
      condition stays alone, an absent one is added once by the first success, and one that is present but
      not true stays in front of one copy per success. */
  lemma MarkingOverCalls(calls: seq<IngressCall>, conditions: seq<Condition>)
    ensures IsTrue(conditions, GS_PRIVATE_LINKS_READY) ==> ConditionsAfter(calls, conditions) == conditions
    ensures First(conditions, GS_PRIVATE_LINKS_READY).None? ==>
              ConditionsAfter(calls, conditions) == conditions + Copies(if Successes(calls) > 0 then 1 else 0)
    ensures First(conditions, GS_PRIVATE_LINKS_READY).Some? && !IsTrue(conditions, GS_PRIVATE_LINKS_READY) ==>
              ConditionsAfter(calls, conditions) == conditions + Copies(Successes(calls))
    ensures IsTrue(ConditionsAfter(calls, conditions), GS_PRIVATE_LINKS_READY)
       <==> || IsTrue(conditions, GS_PRIVATE_LINKS_READY)
            || (First(conditions, GS_PRIVATE_LINKS_READY).None? && Successes(calls) > 0)
  {
    CallsMark(calls, conditions);
    MarkingOverRuns(Successes(calls), conditions);
    assert conditions + Copies(0) == conditions;
  }

  /** After calls of which some succeed, the condition occurs at most once exactly when it was absent
      before, or present once and true. */
  lemma AtMostOneOccurrence(calls: seq<IngressCall>, conditions: seq<Condition>)
    requires Successes(calls) > 0
    ensures Count(ConditionsAfter(calls, conditions)) <= 1
       <==> Count(conditions) == 0 || (Count(conditions) == 1 && IsTrue(conditions, GS_PRIVATE_LINKS_READY))
  {
    var n := Successes(calls);
    MarkingOverCalls(calls, conditions);
    FirstIsFirst(conditions, GS_PRIVATE_LINKS_READY);
    FilterAppend(OfKind(GS_PRIVATE_LINKS_READY), conditions, Copies(1));
    FilterAppend(OfKind(GS_PRIVATE_LINKS_READY), conditions, Copies(n));
    CopiesCount(1);
    CopiesCount(n);
  }

  // ---- the two waits of a live run

  /** A pair of clusters that live runs can work on. */
  predicate Ready(mc: AzureCluster, wc: AzureCluster) {
    && mc.subnets != [] && wc.subnets != []
    && mc.lbType.Internal?
    && (wc.lbType.Internal? ==>
          && AllowedLinks(SiteOf(mc, wc)) != []
          && IsTrue(wc.conditions, PRIVATE_LINKS_READY)
          && ListInvariant(SiteOf(mc, wc), EndpointsOf(mc)))
  }

  function Gateway(mc: AzureCluster, wc: AzureCluster): Endpoints {
    [GatewaySpec(wc.info, mc.info)]
  }

  function WantedInMc(mc: AzureCluster, wc: AzureCluster): Endpoints {
    if wc.lbType.Internal? then WantedSpecs(SiteOf(mc, wc)) else []
  }

  /** How many endpoints the two clusters still lack. */
  function Lacking(mc: AzureCluster, wc: AzureCluster): nat {
    |Missing(WantedInMc(mc, wc), EndpointsOf(mc))| + |Missing(Gateway(mc, wc), EndpointsOf(wc))|
  }

  /** Between runs, every persisted endpoint that the operator wants has got an IP. */
  predicate Materialised(mc: AzureCluster, wc: AzureCluster, mcIp: IpOracle, wcIp: IpOracle) {
    Serves(WantedInMc(mc, wc), mcIp, EndpointsOf(mc)) && Serves(Gateway(mc, wc), wcIp, EndpointsOf(wc))
  }

  lemma McToWcProgress(mc: AzureCluster, wc: AzureCluster, ip: IpOracle)
    requires Ready(mc, wc) && Serves(WantedInMc(mc, wc), ip, EndpointsOf(mc))
    ensures McToWc(mc, wc, ip).failure.Some? ==>
              |Missing(WantedInMc(mc, wc), McToWc(mc, wc, ip).list)| < |Missing(WantedInMc(mc, wc), EndpointsOf(mc))|
    ensures McToWc(mc, wc, ip).failure.None? ==> Missing(WantedInMc(mc, wc), McToWc(mc, wc, ip).list) == {}
    ensures wc.lbType.Internal? ==> ListInvariant(SiteOf(mc, wc), McToWc(mc, wc, ip).list)
  {
    if wc.lbType.Internal? {
      var site := SiteOf(mc, wc);
      var specs, list := WantedSpecs(site), EndpointsOf(mc);
      var after := McToWc(mc, wc, ip);
      ReconcileKeepsInvariant(site, true, ip, list, wc.annotations);
      if after.failure.Some? {
        FailureShrinks(specs, API_SERVER_ANNOTATION, ip, list, wc.annotations);
        SmallerSet(Missing(specs, after.list), Missing(specs, list));
      } else {
        InvariantProtectsWanted(site, list);
        NamesOutlastUnique(site, list);
        EveryNameServed(site, true, ip, list, wc.annotations);
      }
    }
  }

  lemma WcToMcProgress(mc: AzureCluster, wc: AzureCluster, ip: IpOracle, annotations: map<string, string>)
    requires Ready(mc, wc) && Serves(Gateway(mc, wc), ip, EndpointsOf(wc))
    ensures WcToMc(mc, wc, ip, annotations).ensured.failure.Some? ==>
              |Missing(Gateway(mc, wc), WcToMc(mc, wc, ip, annotations).ensured.list)|
              < |Missing(Gateway(mc, wc), EndpointsOf(wc))|
  {
    var after := WcToMc(mc, wc, ip, annotations).ensured;
    if after.failure.Some? {
      FailureShrinks(Gateway(mc, wc), MC_INGRESS_ANNOTATION, ip, EndpointsOf(wc), annotations);
      SmallerSet(Missing(Gateway(mc, wc), after.list), Missing(Gateway(mc, wc), EndpointsOf(wc)));
    }
  }

  lemma LiveShape(mc: AzureCluster, wc: AzureCluster, mcIp: IpOracle, wcIp: IpOracle)
    requires mc.subnets != [] && wc.subnets != []
    ensures EndpointsOf(Live(mc, wc, mcIp, wcIp).mc) == McToWc(mc, wc, mcIp).list
    ensures McToWc(mc, wc, mcIp).failure.Some? ==> EndpointsOf(Live(mc, wc, mcIp, wcIp).wc) == EndpointsOf(wc)
    ensures McToWc(mc, wc, mcIp).failure.None? ==>
              EndpointsOf(Live(mc, wc, mcIp, wcIp).wc)
              == WcToMc(mc, wc, wcIp, McToWc(mc, wc, mcIp).annotations).ensured.list
    ensures Live(mc, wc, mcIp, wcIp).mc.subnets != [] && Live(mc, wc, mcIp, wcIp).wc.subnets != []
  {
    var api := McToWc(mc, wc, mcIp);
    ReadBack(mc, api.list);
    var list := if api.failure.Some? then EndpointsOf(wc) else WcToMc(mc, wc, wcIp, api.annotations).ensured.list;
    ReadBack(wc, list);
    SubnetChoiceIgnoresEndpoints(WithEndpoints(wc, list).subnets, Live(mc, wc, mcIp, wcIp).wc.subnets);
  }

  lemma LiveKeepsLinksReady(mc: AzureCluster, wc: AzureCluster, mcIp: IpOracle, wcIp: IpOracle)
    requires IsTrue(wc.conditions, PRIVATE_LINKS_READY)
    ensures IsTrue(Live(mc, wc, mcIp, wcIp).wc.conditions, PRIVATE_LINKS_READY)
  {
    AppendingKeepsMetGates(wc.conditions, [Condition(GS_PRIVATE_LINKS_READY, ConditionTrue)], PRIVATE_LINKS_READY);
  }

  lemma LiveStaysReady(mc: AzureCluster, wc: AzureCluster, mcIp: IpOracle, wcIp: IpOracle)
    requires Ready(mc, wc) && Materialised(mc, wc, mcIp, wcIp)
    ensures Ready(Live(mc, wc, mcIp, wcIp).mc, Live(mc, wc, mcIp, wcIp).wc)
  {
    LiveShape(mc, wc, mcIp, wcIp);
    McToWcProgress(mc, wc, mcIp);
    if wc.lbType.Internal? {
      LiveKeepsLinksReady(mc, wc, mcIp, wcIp);
    }
  }

  /** A run that has to wait leaves fewer endpoints lacking than it found. */
  lemma WaitingMakesProgress(mc: AzureCluster, wc: AzureCluster, mcIp: IpOracle, wcIp: IpOracle)
    requires Ready(mc, wc) && Materialised(mc, wc, mcIp, wcIp)
    requires Live(mc, wc, mcIp, wcIp).failure.Some?
    ensures Lacking(Live(mc, wc, mcIp, wcIp).mc, Live(mc, wc, mcIp, wcIp).wc) < Lacking(mc, wc)
  {
    LiveShape(mc, wc, mcIp, wcIp);
    McToWcProgress(mc, wc, mcIp);
    WcToMcProgress(mc, wc, wcIp, McToWc(mc, wc, mcIp).annotations);
  }

  /** One live run with all patches stored: the clusters it reads and what Azure answers. */
  datatype PairRound = PairRound(mc: AzureCluster, wc: AzureCluster, mcIp: IpOracle, wcIp: IpOracle)

  function EndOf(r: PairRound): Edited {
    Live(r.mc, r.wc, r.mcIp, r.wcIp)
  }

  /** Between two runs others may change both clusters, or nothing, but they want the same endpoints, take
      none of them away and leave a ready pair ready. */
  predicate Follows(e: Edited, mc: AzureCluster, wc: AzureCluster) {
    && WantedInMc(mc, wc) == WantedInMc(e.mc, e.wc) && Gateway(mc, wc) == Gateway(e.mc, e.wc)
    && Persists(WantedInMc(e.mc, e.wc), EndpointsOf(e.mc), EndpointsOf(mc))
    && Persists(Gateway(e.mc, e.wc), EndpointsOf(e.wc), EndpointsOf(wc))
    && (Ready(e.mc, e.wc) ==> Ready(mc, wc))
  }

  /** Consecutive runs, each of which still waits for an IP. */
  predicate KeepsWaiting(rounds: seq<PairRound>)
    decreases |rounds|
  {
    rounds == [] ||
    (Materialised(rounds[0].mc, rounds[0].wc, rounds[0].mcIp, rounds[0].wcIp)
     && EndOf(rounds[0]).failure.Some?
     && (|rounds| > 1 ==> Follows(EndOf(rounds[0]), rounds[1].mc, rounds[1].wc))
     && KeepsWaiting(rounds[1..]))
  }

  lemma LackingPersists(e: Edited, mc: AzureCluster, wc: AzureCluster)
    requires Follows(e, mc, wc)
    ensures Lacking(mc, wc) <= Lacking(e.mc, e.wc)
  {
    FewerMissing(WantedInMc(e.mc, e.wc), EndpointsOf(e.mc), EndpointsOf(mc));
    FewerMissing(Gateway(e.mc, e.wc), EndpointsOf(e.wc), EndpointsOf(wc));
  }

  lemma FewerMissing(specs: Endpoints, before: Endpoints, after: Endpoints)
    requires Persists(specs, before, after)
    ensures |Missing(specs, after)| <= |Missing(specs, before)|
  {
    if Missing(specs, after) != Missing(specs, before) {
      SmallerSet(Missing(specs, after), Missing(specs, before));
    }
  }

  lemma LackingAtMost(mc: AzureCluster, wc: AzureCluster)
    ensures Lacking(mc, wc) <= |AllowedLinks(SiteOf(mc, wc))| + 1
  {
    MissingAtMost(WantedInMc(mc, wc), EndpointsOf(mc));
    MissingAtMost(Gateway(mc, wc), EndpointsOf(wc));
  }

  /** From a ready pair with n allowed links, at most n + 1 runs wait before one succeeds. */
  lemma {:induction false} WaitingIsBounded(rounds: seq<PairRound>)
    requires rounds != [] && Ready(rounds[0].mc, rounds[0].wc) && KeepsWaiting(rounds)
    ensures |rounds| <= Lacking(rounds[0].mc, rounds[0].wc) <= |AllowedLinks(SiteOf(rounds[0].mc, rounds[0].wc))| + 1
    decreases |rounds|
  {
    var mc, wc := rounds[0].mc, rounds[0].wc;
    LackingAtMost(mc, wc);
    WaitingMakesProgress(mc, wc, rounds[0].mcIp, rounds[0].wcIp);
    if |rounds| > 1 {
      LiveStaysReady(mc, wc, rounds[0].mcIp, rounds[0].wcIp);
      LackingPersists(EndOf(rounds[0]), rounds[1].mc, rounds[1].wc);
      WaitingIsBounded(rounds[1..]);
    }
  }

  // ---- what the run that does not wait has connected

  /** An endpoint with the name of the gateway endpoint and a connection to the management cluster's own
      private link for the gateway. */
  predicate IsGateway(wc: ClusterInfo, mc: ClusterInfo, e: PrivateEndpointSpec) {
    && e.name == GatewaySpec(wc, mc).name
    && exists i :: 0 <= i < |e.connections|
         && e.connections[i].privateLinkServiceID == PrivateLinks.IDOf(mc, mc.id.name + "-gateway-privatelink")
  }

  predicate HasGateway(wc: ClusterInfo, mc: ClusterInfo, list: Endpoints) {
    exists e :: e in list && IsGateway(wc, mc, e)
  }

  /** The ingress annotation holds the IP of an endpoint in the list that leads to the gateway. */
  predicate AnnotatesGateway(wc: ClusterInfo, mc: ClusterInfo, ip: IpOracle, r: Ensured) {
    exists e :: e in r.list && IsGateway(wc, mc, e)
                && MC_INGRESS_ANNOTATION in r.annotations && ip(e.name) == Ok(r.annotations[MC_INGRESS_ANNOTATION])
  }

  lemma SpecIsGateway(wc: ClusterInfo, mc: ClusterInfo)
    ensures IsGateway(wc, mc, GatewaySpec(wc, mc)) <==> mc.resourceGroup == mc.id.name
  {
    GatewayLeadsHome(wc, mc);
    var e, id := GatewaySpec(wc, mc), PrivateLinks.IDOf(mc, mc.id.name + "-gateway-privatelink");
    assert IsGateway(wc, mc, e) <==> e.connections[0].privateLinkServiceID == id;
  }

  /** What must hold before a run: a bearer of the gateway endpoint's name leads to the gateway, or the name is
      free and the management cluster's resource group has the cluster's name, as the ID to be built assumes. */
  predicate GatewayInReach(mc: AzureCluster, wc: AzureCluster) {
    if HasName(EndpointsOf(wc), GatewaySpec(wc.info, mc.info).name) then HasGateway(wc.info, mc.info, EndpointsOf(wc))
    else mc.info.resourceGroup == mc.info.id.name
  }

  lemma IngressList(mc: AzureCluster, wc: AzureCluster, ip: IpOracle, annotations: map<string, string>)
    requires mc.lbType.Internal? && WcToMc(mc, wc, ip, annotations).ensured.failure.None?
    ensures var spec := GatewaySpec(wc.info, mc.info);
            && ip(spec.name).Ok?
            && WcToMc(mc, wc, ip, annotations).ensured.annotations
                 == annotations[MC_INGRESS_ANNOTATION := ip(spec.name).value]
            && WcToMc(mc, wc, ip, annotations).ensured.list == AddSpec(EndpointsOf(wc), spec)
  {
    var specs, list := Gateway(mc, wc), EndpointsOf(wc);
    EnsureFails(specs, MC_INGRESS_ANNOTATION, ip, list, annotations);
    EnsureAdds(specs, MC_INGRESS_ANNOTATION, ip, list, annotations);
    EnsureNotes(specs, MC_INGRESS_ANNOTATION, ip, list, annotations);
    assert specs[1..] == [];
    assert AddAll(list, specs) == AddAll(AddSpec(list, specs[0]), specs[1..]);
  }

  /** A run that does not wait for the gateway leaves the workload cluster with an endpoint of the gateway's
      name that leads there, its IP noted, exactly when a bearer of the name led there already, or the name
      was free and the management cluster's resource group bears the cluster's name. */
  lemma IngressConnected(mc: AzureCluster, wc: AzureCluster, ip: IpOracle, annotations: map<string, string>)
    requires mc.lbType.Internal? && WcToMc(mc, wc, ip, annotations).ensured.failure.None?
    ensures AnnotatesGateway(wc.info, mc.info, ip, WcToMc(mc, wc, ip, annotations).ensured) <==> GatewayInReach(mc, wc)
  {
    var r := WcToMc(mc, wc, ip, annotations).ensured;
    IngressList(mc, wc, ip, annotations);
    SpecIsGateway(wc.info, mc.info);
    assert AnnotatesGateway(wc.info, mc.info, ip, r) <==> HasGateway(wc.info, mc.info, r.list);
    if !HasName(EndpointsOf(wc), GatewaySpec(wc.info, mc.info).name) {
      assert GatewaySpec(wc.info, mc.info) in r.list;
      forall e | e in EndpointsOf(wc) ensures !IsGateway(wc.info, mc.info, e) {
        var i :| 0 <= i < |EndpointsOf(wc)| && EndpointsOf(wc)[i] == e;
      }
    }
  }

  /** With another resource group, the endpoint that the run adds leads to no link of the management
      cluster's; the run notes its IP and opens the gate all the same. */
  lemma GatewayGoesAstray(mc: AzureCluster, wc: AzureCluster, ip: IpOracle, annotations: map<string, string>)
    requires mc.lbType.Internal? && EndpointsOf(wc) == [] && ip(GatewaySpec(wc.info, mc.info).name).Ok?
    requires mc.info.resourceGroup != mc.info.id.name
    ensures WcToMc(mc, wc, ip, annotations)
         == Ingress(Ensured([GatewaySpec(wc.info, mc.info)],
                            annotations[MC_INGRESS_ANNOTATION := ip(GatewaySpec(wc.info, mc.info).name).value], None),
                    MarkReady(wc.conditions))
    ensures !HasGateway(wc.info, mc.info, [GatewaySpec(wc.info, mc.info)])
  {
    EnsureFails(Gateway(mc, wc), MC_INGRESS_ANNOTATION, ip, EndpointsOf(wc), annotations);
    IngressList(mc, wc, ip, annotations);
    SpecIsGateway(wc.info, mc.info);
  }

  /** A bearer of the name that leads nowhere is trusted: the run notes its IP and opens the gate. */
  lemma GatewayNamesakeIsTrusted(mc: AzureCluster, wc: AzureCluster, namesake: PrivateEndpointSpec, ip: IpOracle,
                                 annotations: map<string, string>)
    requires mc.lbType.Internal? && EndpointsOf(wc) == [namesake] && ip(namesake.name).Ok?
    requires namesake.name == GatewaySpec(wc.info, mc.info).name && namesake.connections == []
    ensures WcToMc(mc, wc, ip, annotations)
         == Ingress(Ensured([namesake], annotations[MC_INGRESS_ANNOTATION := ip(namesake.name).value], None),
                    MarkReady(wc.conditions))
    ensures !HasGateway(wc.info, mc.info, [namesake])
  {
    EnsureFails(Gateway(mc, wc), MC_INGRESS_ANNOTATION, ip, EndpointsOf(wc), annotations);
    IngressList(mc, wc, ip, annotations);
    assert EndpointsOf(wc)[0].name == GatewaySpec(wc.info, mc.info).name;
  }

  /** Every allowed link has an endpoint of its name that connects to it, and the annotation holds the IP of
      the last one's. */
  predicate ApiServerConnected(site: Site, ip: IpOracle, r: Ensured) {
    && (forall l :: l in AllowedLinks(site) ==> HasEndpoint(site, r.list, l))
    && AllowedLinks(site) != [] && AnnotatesLink(site, ip, r, LastLink(site))
  }

  /** What must hold before a run: the name of each allowed link is free, or borne by an endpoint that
      connects to the link and outlasts pruning. */
  predicate LinksInReach(site: Site, list: Endpoints) {
    forall l :: l in AllowedLinks(site) ==> KeepsEndpoint(site, list, l)
  }

  lemma ApiConnected(mc: AzureCluster, wc: AzureCluster, ip: IpOracle)
    requires wc.lbType.Internal? && McToWc(mc, wc, ip).failure.None?
    ensures ApiServerConnected(SiteOf(mc, wc), ip, McToWc(mc, wc, ip))
       <==> LinksInReach(SiteOf(mc, wc), EndpointsOf(mc))
  {
    var site, list := SiteOf(mc, wc), EndpointsOf(mc);
    AnnotationLeadsToLink(site, true, ip, list, wc.annotations);
    forall l | l in AllowedLinks(site)
      ensures HasEndpoint(site, McToWc(mc, wc, ip).list, l) <==> KeepsEndpoint(site, list, l)
    {
      LinkServed(site, true, ip, list, wc.annotations, l);
    }
    assert LastLink(site) in AllowedLinks(site);
  }

  /** What a live run is for: the gateway endpoint in the workload cluster, an endpoint per allowed link in
      the management cluster, each leading there, and the IPs noted in the workload cluster's annotations. */
  predicate BothConnected(e: Edited, mcIp: IpOracle, wcIp: IpOracle) {
    && ApiServerConnected(SiteOf(e.mc, e.wc), mcIp, Ensured(EndpointsOf(e.mc), e.wc.annotations, None))
    && AnnotatesGateway(e.wc.info, e.mc.info, wcIp, Ensured(EndpointsOf(e.wc), e.wc.annotations, None))
  }

  lemma SuccessShape(mc: AzureCluster, wc: AzureCluster, mcIp: IpOracle, wcIp: IpOracle)
    requires Live(mc, wc, mcIp, wcIp).failure.None?
    ensures McToWc(mc, wc, mcIp).failure.None?
    ensures var ingress := WcToMc(mc, wc, wcIp, McToWc(mc, wc, mcIp).annotations).ensured;
            ingress.failure.None? && Live(mc, wc, mcIp, wcIp).wc.annotations == ingress.annotations
    ensures SiteOf(Live(mc, wc, mcIp, wcIp).mc, Live(mc, wc, mcIp, wcIp).wc) == SiteOf(mc, wc)
    ensures Live(mc, wc, mcIp, wcIp).mc.info == mc.info && Live(mc, wc, mcIp, wcIp).wc.info == wc.info
  {
  }

  lemma ApiNoteSurvivesIngress(site: Site, ip: IpOracle, before: Ensured, after: Ensured, address: string)
    requires after.list == before.list && after.annotations == before.annotations[MC_INGRESS_ANNOTATION := address]
    ensures ApiServerConnected(site, ip, after) <==> ApiServerConnected(site, ip, before)
  {
    assert |API_SERVER_ANNOTATION| != |MC_INGRESS_ANNOTATION|;
  }

  /** A run that does not wait has connected both clusters, if and only if the endpoints that bore wanted
      names before led where the names say and the gateway's link is where the operator looks for it. */
  lemma SuccessConnectsBoth(mc: AzureCluster, wc: AzureCluster, mcIp: IpOracle, wcIp: IpOracle)
    requires mc.subnets != [] && wc.subnets != [] && mc.lbType.Internal? && wc.lbType.Internal?
    requires Live(mc, wc, mcIp, wcIp).failure.None?
    ensures BothConnected(Live(mc, wc, mcIp, wcIp), mcIp, wcIp)
       <==> LinksInReach(SiteOf(mc, wc), EndpointsOf(mc)) && GatewayInReach(mc, wc)
  {
    var e := Live(mc, wc, mcIp, wcIp);
    var api := McToWc(mc, wc, mcIp);
    var ingress := WcToMc(mc, wc, wcIp, api.annotations).ensured;
    LiveShape(mc, wc, mcIp, wcIp);
    SuccessShape(mc, wc, mcIp, wcIp);
    ApiConnected(mc, wc, mcIp);
    IngressList(mc, wc, wcIp, api.annotations);
    IngressConnected(mc, wc, wcIp, api.annotations);
    ApiNoteSurvivesIngress(SiteOf(mc, wc), mcIp, api, Ensured(EndpointsOf(e.mc), e.wc.annotations, None),
                           wcIp(GatewaySpec(wc.info, mc.info).name).value);
    assert ingress == Ensured(EndpointsOf(e.wc), e.wc.annotations, None);
  }

  /** Without duplicates the links are in reach exactly when every endpoint with the name of an allowed link
      connects to that link, and each then has one endpoint only. */
  lemma LinksInReachUnique(site: Site, ready: bool, ip: IpOracle, list: Endpoints, annotations: map<string, string>)
    requires UniqueNames(list) && ReconcileMcToWcApi(site, ready, ip, list, annotations).failure.None?
    ensures LinksInReach(site, list) <==> NamesakesConnect(site, list)
    ensures LinksInReach(site, list) ==>
              forall l :: l in AllowedLinks(site) ==>
                CountName(ReconcileMcToWcApi(site, ready, ip, list, annotations).list, EndpointName(l.name)) == 1
  {
    SuccessfulList(site, ready, ip, list, annotations);
    forall l | l in AllowedLinks(site)
      ensures KeepsEndpoint(site, list, l)
         <==> forall e :: e in list && e.name == EndpointName(l.name) ==> ConnectsTo(site.wc, e, l.name)
      ensures KeepsEndpoint(site, list, l) ==>
                CountName(ReconcileMcToWcApi(site, ready, ip, list, annotations).list, EndpointName(l.name)) == 1
    {
      KeepsEndpointUnique(site, list, l);
      LinkServed(site, ready, ip, list, annotations, l);
      if KeepsEndpoint(site, list, l) {
        OwnEndpointCounts(site, ReconcileMcToWcApi(site, ready, ip, list, annotations).list, l);
      }
    }
  }

  /** The run that does not wait meets the gate, exactly when no earlier condition of its type says otherwise. */
  lemma SuccessOpensGate(mc: AzureCluster, wc: AzureCluster, mcIp: IpOracle, wcIp: IpOracle)
    requires mc.lbType.Internal? && Live(mc, wc, mcIp, wcIp).failure.None?
    ensures IsTrue(Live(mc, wc, mcIp, wcIp).wc.conditions, GS_PRIVATE_LINKS_READY)
       <==> First(wc.conditions, GS_PRIVATE_LINKS_READY).None? || IsTrue(wc.conditions, GS_PRIVATE_LINKS_READY)
  {
    MarkingOverRuns(1, wc.conditions);
    assert MarkTimes(1, wc.conditions) == MarkReady(MarkTimes(0, wc.conditions));
  }

  /** After it, one stored gate run unpauses the control plane if all other gates are met. */
  lemma SuccessUnpauses(mc: AzureCluster, wc: AzureCluster, mcIp: IpOracle, wcIp: IpOracle,
                        w: World, mcName: NamespacedName, gates: seq<string>, kcp: NamespacedName)
    requires mc.lbType.Internal? && Live(mc, wc, mcIp, wcIp).failure.None?
    requires First(wc.conditions, GS_PRIVATE_LINKS_READY).None? || IsTrue(wc.conditions, GS_PRIVATE_LINKS_READY)
    requires Reaches(w, mcName, gates, kcp).Checks?
    requires w.clusters[Reaches(w, mcName, gates, kcp).infra] == Live(mc, wc, mcIp, wcIp).wc
    requires forall g :: g in gates && g != GS_PRIVATE_LINKS_READY ==> IsTrue(wc.conditions, g)
    ensures !Paused(AfterGate(w, mcName, gates, kcp, true), kcp)
  {
    SuccessOpensGate(mc, wc, mcIp, wcIp);
    var after := Live(mc, wc, mcIp, wcIp).wc.conditions;
    forall g | g in gates ensures IsTrue(after, g) {
      AppendingKeepsMetGates(wc.conditions, [Condition(GS_PRIVATE_LINKS_READY, ConditionTrue)], g);
    }
    PausedIffUnmet(w, mcName, gates, kcp);
  }
}
