/** What the endpoints service promises about the list and the annotations, in terms of the records
    themselves: the links, the endpoints before and after, and Azure's answers. */
module ServicePromises {
  import opened Types
  import opened Sequences
  import opened ResourceIds
  import opened PrivateLinks
  import opened Conditions
  import opened EndpointLists
  import opened ServiceSpec
  import opened Pruning
  import opened Reconciliation
  import opened ControllerSpec
  import opened ClusterObjects

  // ---- the records

  /** How Azure writes the ID of a resource group, and of a private link service in one. */
  function GroupID(subscription: string, group: string): string {
    "/subscriptions/" + (subscription + ("/resourceGroups/" + group))
  }

  function ServiceID(subscription: string, group: string, name: string): string {
    GroupID(subscription, group + ("/providers/" + "Microsoft.Network/privateLinkServices/" + name))
  }

  predicate AllowsMc(site: Site, l: PrivateLink) {
    Some(site.mc.subscriptionID) in l.allowedSubscriptions
  }

  /** A nil entry counts as the empty subscription. */
  predicate AutoApprovesMc(site: Site, l: PrivateLink) {
    || Some(site.mc.subscriptionID) in l.autoApprovedSubscriptions
    || (site.mc.subscriptionID == "" && None in l.autoApprovedSubscriptions)
  }

  function Request(site: Site): string {
    "Giant Swarm azure-private-endpoint-operator that is running in management cluster " + site.mc.id.name
    + " created private endpoint in order to access private workload cluster " + site.wc.id.name
  }

  /** The endpoint is the one to make for the link: where, to what, and whether with a request. */
  predicate MadeFor(site: Site, l: PrivateLink, e: PrivateEndpointSpec) {
    && e.name == l.name + "-privateendpoint"
    && e.location == site.mc.location
    && |e.connections| == 1
    && e.connections[0].name == l.name + "-connection"
    && e.connections[0].privateLinkServiceID == ServiceID(site.wc.subscriptionID, site.wc.resourceGroup, l.name)
    && (e.manualApproval <==> !AutoApprovesMc(site, l))
    && e.connections[0].requestMessage == if AutoApprovesMc(site, l) then "" else Request(site)
  }

  /** Some connection leads to a link service whose ID starts like those of the workload cluster. */
  predicate SeemsToLeadTo(wc: ClusterInfo, e: PrivateEndpointSpec) {
    exists c :: c in e.connections
      && GroupID(wc.subscriptionID, wc.resourceGroup) <= c.privateLinkServiceID
  }

  /** Some connection leads to an existing link of the workload cluster. */
  predicate LeadsToLink(site: Site, e: PrivateEndpointSpec) {
    exists c, l :: c in e.connections && l in site.links
      && c.privateLinkServiceID == ServiceID(site.wc.subscriptionID, site.wc.resourceGroup, l.name)
  }

  lemma IDIsServiceID(wc: ClusterInfo, name: string)
    ensures IDOf(wc, name) == ServiceID(wc.subscriptionID, wc.resourceGroup, name)
    ensures GroupPrefix(wc.subscriptionID, wc.resourceGroup) == GroupID(wc.subscriptionID, wc.resourceGroup)
  {
  }

  lemma ManualExactly(site: Site, l: PrivateLink)
    ensures ManualApproval(site, l) <==> !AutoApprovesMc(site, l)
  {
    AutoApproved(site, l);
  }

  lemma WantedIsMade(site: Site, l: PrivateLink)
    ensures MadeFor(site, l, WantedSpec(site, l))
  {
    ManualExactly(site, l);
    IDIsServiceID(site.wc, l.name);
    var message := if ManualApproval(site, l) then RequestMessage(site) else "";
    assert RequestMessage(site) == Request(site);
    assert WantedSpec(site, l).connections
        == [PrivateLinkServiceConnection(l.name + "-connection", IDOf(site.wc, l.name), message)];
  }

  lemma AllowedExactly(site: Site, l: PrivateLink)
    ensures l in AllowedLinks(site) <==> l in site.links && AllowsMc(site, l)
  {
    FilterMember(Allows(site.mc.subscriptionID), site.links, l);
  }

  lemma PrunableExactly(site: Site, e: PrivateEndpointSpec)
    ensures Prunable(site, e) <==> SeemsToLeadTo(site.wc, e) && !LeadsToLink(site, e)
  {
    IDIsServiceID(site.wc, "");
    assert ToCluster(site.wc, e) <==> SeemsToLeadTo(site.wc, e);
    forall i | 0 <= i < |e.connections|
      ensures FirstWithID(site.wc, site.links, e.connections[i].privateLinkServiceID).Some?
         <==> exists l :: l in site.links
                && e.connections[i].privateLinkServiceID
                     == ServiceID(site.wc.subscriptionID, site.wc.resourceGroup, l.name)
    {
      LookupFinds(site.wc, site.links, e.connections[i].privateLinkServiceID);
      forall l | l in site.links
        ensures IDOf(site.wc, l.name) == ServiceID(site.wc.subscriptionID, site.wc.resourceGroup, l.name)
      {
        IDIsServiceID(site.wc, l.name);
      }
    }
  }

  // ---- ReconcileMcToWcApi

  /** Whatever was not in the list before is the endpoint of a link that allows the management cluster. */
  lemma AddedIsMade(site: Site, ready: bool, ip: IpOracle, list: Endpoints, annotations: map<string, string>,
                    e: PrivateEndpointSpec)
    requires e in ReconcileMcToWcApi(site, ready, ip, list, annotations).list && e !in list
    ensures exists l :: l in site.links && AllowsMc(site, l) && MadeFor(site, l, e)
  {
    NewIsWanted(site, ready, ip, list, annotations, e);
    var l := WantedComesFromLink(site, e);
    AllowedExactly(site, l);
    WantedIsMade(site, l);
  }

  lemma NewIsWanted(site: Site, ready: bool, ip: IpOracle, list: Endpoints, annotations: map<string, string>,
                    e: PrivateEndpointSpec)
    requires e in ReconcileMcToWcApi(site, ready, ip, list, annotations).list && e !in list
    ensures e in WantedSpecs(site) && !HasName(list, e.name)
  {
    var specs := WantedSpecs(site);
    if AllowedLinks(site) != [] && ready {
      EnsureAdds(specs, API_SERVER_ANNOTATION, ip, list, annotations);
      AddAllAppends(list, Tried(specs, ip));
      AddedMembers(list, Tried(specs, ip));
      if ReconcileMcToWcApi(site, ready, ip, list, annotations).failure.None? {
        SuccessfulPrune(site, ready, ip, list, annotations);
        AddedMembers(list, specs);
        PruneMember(site, list, e);
      }
    }
  }

  /** After a successful run each link that allows the management cluster finds its name in the list, unless
      a bearer that was there before had to go; where the name was free, the endpoint is one made for it. */
  lemma FreeNamesAreTaken(site: Site, ready: bool, ip: IpOracle, list: Endpoints, annotations: map<string, string>,
                          l: PrivateLink)
    requires ReconcileMcToWcApi(site, ready, ip, list, annotations).failure.None?
    requires l in site.links && AllowsMc(site, l) && !HasName(list, l.name + "-privateendpoint")
    ensures exists e, l' ::
              && e in ReconcileMcToWcApi(site, ready, ip, list, annotations).list
              && l' in site.links && AllowsMc(site, l') && l'.name == l.name && MadeFor(site, l', e)
  {
    var specs, name := WantedSpecs(site), l.name + "-privateendpoint";
    var added := Added(list, specs);
    AllowedExactly(site, l);
    var i :| 0 <= i < |specs| && AllowedLinks(site)[i] == l;
    assert specs[i] in specs;
    SuccessfulPrune(site, ready, ip, list, annotations);
    AddAllCovers(list, specs);
    AddAllAppends(list, specs);
    HasNameSplit(list, added, name);
    var k :| 0 <= k < |added| && added[k].name == name;
    AddedMembers(list, specs);
    assert added[k] in added;
    var l' := WantedComesFromLink(site, added[k]);
    EndpointNameInjective(l.name, l'.name);
    AllowedExactly(site, l');
    WantedIsMade(site, l');
    assert added[k] in ReconcileMcToWcApi(site, ready, ip, list, annotations).list;
  }

  /** Of what was in a list without duplicates, a successful run removes exactly the endpoints that seem to
      lead to the workload cluster and lead to none of its links. */
  lemma RemovedIsStale(site: Site, ready: bool, ip: IpOracle, list: Endpoints, annotations: map<string, string>,
                       e: PrivateEndpointSpec)
    requires UniqueNames(list) && e in list
    requires ReconcileMcToWcApi(site, ready, ip, list, annotations).failure.None?
    ensures e !in ReconcileMcToWcApi(site, ready, ip, list, annotations).list
       <==> SeemsToLeadTo(site.wc, e) && !LeadsToLink(site, e)
  {
    SuccessfulPrune(site, ready, ip, list, annotations);
    PruneUnique(site, list);
    PrunableExactly(site, e);
    AddedMembers(list, WantedSpecs(site));
    var i :| 0 <= i < |list| && list[i] == e;
  }

  /** Azure has an IP for each of the first i links that allow the management cluster. */
  predicate HaveIPs(site: Site, ip: IpOracle, i: nat)
    requires i <= |AllowedLinks(site)|
  {
    forall j :: 0 <= j < i ==> ip(AllowedLinks(site)[j].name + "-privateendpoint").Ok?
  }

  lemma WantedName(site: Site, i: nat)
    requires i < |AllowedLinks(site)|
    ensures WantedSpecs(site)[i].name == AllowedLinks(site)[i].name + "-privateendpoint"
  {
  }

  lemma TriedWhileIPs(site: Site, ip: IpOracle, i: nat)
    requires i < |AllowedLinks(site)| && HaveIPs(site, ip, i)
    ensures WantedSpecs(site)[i] in Tried(WantedSpecs(site), ip)
  {
    var specs := WantedSpecs(site);
    forall j | 0 <= j < i ensures ip(specs[j].name).Ok? {
      WantedName(site, j);
    }
    assert Tried(specs, ip)[i] == specs[i];
  }

  lemma PersistedWhileIPs(site: Site, ip: IpOracle, list: Endpoints, i: nat)
    requires i < |AllowedLinks(site)| && HaveIPs(site, ip, i)
    ensures HasName(AddAll(list, Tried(WantedSpecs(site), ip)), AllowedLinks(site)[i].name + "-privateendpoint")
  {
    TriedWhileIPs(site, ip, i);
    WantedName(site, i);
    AddAllCovers(list, Tried(WantedSpecs(site), ip));
  }

  /** A failing run removes nothing, and has put into the list the name of every allowed link up to the
      first without an IP. */
  lemma FailureKeepsAndPersists(site: Site, ip: IpOracle, list: Endpoints, annotations: map<string, string>)
    requires ReconcileMcToWcApi(site, true, ip, list, annotations).failure.Some?
    ensures list <= ReconcileMcToWcApi(site, true, ip, list, annotations).list
    ensures forall i: nat :: i < |AllowedLinks(site)| && HaveIPs(site, ip, i) ==>
              HasName(ReconcileMcToWcApi(site, true, ip, list, annotations).list,
                      AllowedLinks(site)[i].name + "-privateendpoint")
  {
    EnsureAdds(WantedSpecs(site), API_SERVER_ANNOTATION, ip, list, annotations);
    AddAllAppends(list, Tried(WantedSpecs(site), ip));
    forall i: nat | i < |AllowedLinks(site)| && HaveIPs(site, ip, i)
      ensures HasName(AddAll(list, Tried(WantedSpecs(site), ip)), AllowedLinks(site)[i].name + "-privateendpoint")
    {
      PersistedWhileIPs(site, ip, list, i);
    }
  }

  /** The outcome of a run. */
  lemma OutcomeExactly(site: Site, ready: bool, ip: IpOracle, list: Endpoints, annotations: map<string, string>)
    ensures var failure := ReconcileMcToWcApi(site, ready, ip, list, annotations).failure;
            var nobody := forall l :: l in site.links ==> !AllowsMc(site, l);
            && (nobody ==> failure == Some(SubscriptionCannotConnectToPrivateLink))
            && (!nobody && !ready ==> failure == Some(PrivateLinksNotReady))
            && (!nobody && ready ==>
                  (failure.None? <==>
                     forall l :: l in site.links && AllowsMc(site, l) ==> ip(l.name + "-privateendpoint").Ok?))
  {
    FilterNone(Allows(site.mc.subscriptionID), site.links);
    SuccessCondition(site, ready, ip, list, annotations);
    forall l | l in site.links && AllowsMc(site, l)
      ensures exists e :: e in WantedSpecs(site) && e.name == l.name + "-privateendpoint"
    {
      AllowedExactly(site, l);
      var i :| 0 <= i < |AllowedLinks(site)| && AllowedLinks(site)[i] == l;
      assert WantedSpecs(site)[i] in WantedSpecs(site);
    }
    forall e | e in WantedSpecs(site)
      ensures exists l :: l in site.links && AllowsMc(site, l) && e.name == l.name + "-privateendpoint"
    {
      var l := WantedComesFromLink(site, e);
      AllowedExactly(site, l);
    }
  }

  lemma {:induction false} LastAllowed(site: Site, k: nat)
    requires k < |site.links| && AllowsMc(site, site.links[k])
    requires forall j :: k < j < |site.links| ==> !AllowsMc(site, site.links[j])
    ensures AllowedLinks(site) != [] && LastLink(site) == site.links[k]
  {
    var p := Allows(site.mc.subscriptionID);
    var head, tail := site.links[..k], site.links[k + 1..];
    assert site.links == head + [site.links[k]] + tail;
    FilterAppend(p, head + [site.links[k]], tail);
    FilterAppend(p, head, [site.links[k]]);
    FilterNone(p, tail);
    assert Filter(p, [site.links[k]]) == [site.links[k]];
  }

  /** What it notes: the IP for the last link that allows the management cluster, and nothing else. */
  lemma NotesLastIP(site: Site, ready: bool, ip: IpOracle, list: Endpoints, annotations: map<string, string>, k: nat)
    requires ReconcileMcToWcApi(site, ready, ip, list, annotations).failure.None?
    requires k < |site.links| && AllowsMc(site, site.links[k])
    requires forall j :: k < j < |site.links| ==> !AllowsMc(site, site.links[j])
    ensures ip(site.links[k].name + "-privateendpoint").Ok?
    ensures ReconcileMcToWcApi(site, ready, ip, list, annotations).annotations
         == annotations["azure-private-endpoint-operator.giantswarm.io/private-link-apiserver-ip"
                        := ip(site.links[k].name + "-privateendpoint").value]
  {
    LastAllowed(site, k);
    SuccessfulAnnotations(site, ready, ip, list, annotations);
  }

  // ---- DeleteMcToWcApi

  /** From a list without duplicates a deletion takes exactly the endpoints named after a link that allows the
      management cluster, and leaves the others in order. */
  lemma DeletedExactly(site: Site, list: Endpoints)
    requires UniqueNames(list)
    ensures DeleteMcToWcApi(site, list)
         == Filter((e: PrivateEndpointSpec) =>
                     !exists l :: l in site.links && AllowsMc(site, l) && e.name == l.name + "-privateendpoint", list)
  {
    var p := (e: PrivateEndpointSpec) =>
               !exists l :: l in site.links && AllowsMc(site, l) && e.name == l.name + "-privateendpoint";
    DeleteIsFilter(site, list);
    forall e: PrivateEndpointSpec ensures IsNotWanted(site)(e) == p(e) {
      NamedAfterLink(site, e.name);
    }
    FilterSame(IsNotWanted(site), p, list);
  }

  lemma NamedAfterLink(site: Site, name: string)
    ensures Wants(site, name)
       <==> exists l :: l in site.links && AllowsMc(site, l) && name == l.name + "-privateendpoint"
  {
    if Wants(site, name) {
      var i :| 0 <= i < |WantedSpecs(site)| && WantedSpecs(site)[i].name == name;
      assert AllowedLinks(site)[i] in AllowedLinks(site);
      AllowedExactly(site, AllowedLinks(site)[i]);
    }
    if l :| l in site.links && AllowsMc(site, l) && name == l.name + "-privateendpoint" {
      AllowedExactly(site, l);
      var i :| 0 <= i < |AllowedLinks(site)| && AllowedLinks(site)[i] == l;
      assert WantedSpecs(site)[i].name == name;
    }
  }

  lemma {:induction false} FilterSame<T>(p: T -> bool, q: T -> bool, s: seq<T>)
    requires forall x: T :: p(x) == q(x)
    ensures Filter(p, s) == Filter(q, s)
  {
    if s != [] {
      FilterSame(p, q, s[1..]);
    }
  }

  // ---- ReconcileWcToMcIngress for the gateway

  /** The endpoint is the one to make in the workload cluster for the management cluster's gateway. */
  predicate MadeForGateway(wc: ClusterInfo, mc: ClusterInfo, e: PrivateEndpointSpec) {
    && e.name == wc.id.name + "-to-" + mc.id.name + "-gateway-privateendpoint"
    && e.location == wc.location
    && |e.connections| == 1
    && e.connections[0].name == wc.id.name + "-to-" + mc.id.name + "-gateway-connection"
    && e.connections[0].privateLinkServiceID
       == ServiceID(mc.subscriptionID, mc.id.name, mc.id.name + "-gateway-privatelink")
    && e.connections[0].requestMessage == "" && !e.manualApproval
  }

  /** Behind a private management cluster the workload cluster's list keeps all it had, and gets the gateway
      endpoint if its name was free; the IP and the condition come with success, and only then. */
  lemma IngressExactly(mc: AzureCluster, wc: AzureCluster, ip: IpOracle, annotations: map<string, string>)
    requires mc.lbType.Internal?
    ensures var name := wc.info.id.name + "-to-" + mc.info.id.name + "-gateway-privateendpoint";
            var r := WcToMc(mc, wc, ip, annotations);
            && (if HasName(EndpointsOf(wc), name) then r.ensured.list == EndpointsOf(wc)
                else |r.ensured.list| == |EndpointsOf(wc)| + 1 && EndpointsOf(wc) <= r.ensured.list
                     && MadeForGateway(wc.info, mc.info, r.ensured.list[|EndpointsOf(wc)|]))
            && (ip(name).Err? ==> r.ensured.failure == Some(ip(name).error)
                                  && r.ensured.annotations == annotations && r.conditions == wc.conditions)
            && (ip(name).Ok? ==> r.ensured.failure == None
                                 && r.conditions == (if FirstOfKindIsTrue(wc.conditions, "GSPrivateLinksReady")
                                     then wc.conditions
                                                     else wc.conditions + [Condition("GSPrivateLinksReady",
                                                                                     ConditionTrue)])
                                 && r.ensured.annotations == annotations[
                                      "azure-private-endpoint-operator.giantswarm.io/private-link-mc-ingress-ip"
                                      := ip(name).value])
  {
    var spec := GatewaySpec(wc.info, mc.info);
    IDIsServiceID(mc.info.(resourceGroup := mc.info.id.name), mc.info.id.name + "-gateway-privatelink");
    assert MadeForGateway(wc.info, mc.info, spec);
    var specs := [spec];
    assert specs[1..] == [];
    TrueExactly(wc.conditions, GS_PRIVATE_LINKS_READY);
    var next := AddSpec(EndpointsOf(wc), spec);
    if ip(spec.name).Ok? {
      var noted := annotations[MC_INGRESS_ANNOTATION := ip(spec.name).value];
      assert EnsureEndpoints([], MC_INGRESS_ANNOTATION, ip, next, noted) == Ensured(next, noted, None);
    }
  }

  /** Behind a public one nothing happens. */
  lemma NoIngress(mc: AzureCluster, wc: AzureCluster, ip: IpOracle, annotations: map<string, string>)
    requires !mc.lbType.Internal?
    ensures WcToMc(mc, wc, ip, annotations) == Ingress(Ensured(EndpointsOf(wc), annotations, None), wc.conditions)
  {
  }
}
