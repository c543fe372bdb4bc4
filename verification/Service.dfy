/** pkg/privateendpoints/service.go */
module Service {
  import opened Types
  import opened Sequences
  import opened PrivateLinks
  import opened Conditions
  import opened EndpointLists
  import opened AzureApi
  import opened Scopes
  import opened Spec = ServiceSpec
  import Util

  lemma PrunedNamesStep(site: Site, all: Endpoints, scanned: Endpoints, i: nat)
    requires scanned == Filter(IsToCluster(site.wc), all) && i < |scanned|
    ensures PrunedNames(site, scanned[i..])
         == (if Used(site, scanned[i]) then [] else [scanned[i].name]) + PrunedNames(site, scanned[i + 1..])
  {
    assert scanned[i] in scanned;
    FilterMember(IsToCluster(site.wc), all, scanned[i]);
    assert scanned[i..][0] == scanned[i] && scanned[i..][1..] == scanned[i + 1..];
    var rest := Filter(IsPrunable(site), scanned[i + 1..]);
    if Used(site, scanned[i]) {
      assert [] + rest == rest;
    } else {
      assert ([scanned[i]] + rest)[1..] == rest;
    }
  }

  lemma PruneStep(site: Site, all: Endpoints, scanned: Endpoints, i: nat, list: Endpoints)
    requires scanned == Filter(IsToCluster(site.wc), all) && i < |scanned|
    ensures RemoveAll(list, PrunedNames(site, scanned[i..]))
         == RemoveAll(if Used(site, scanned[i]) then list else RemoveByName(list, scanned[i].name),
                      PrunedNames(site, scanned[i + 1..]))
  {
    PrunedNamesStep(site, all, scanned, i);
    var rest := PrunedNames(site, scanned[i + 1..]);
    if Used(site, scanned[i]) {
      assert [] + rest == rest;
    } else {
      assert ([scanned[i].name] + rest)[1..] == rest;
    }
  }

  lemma PruneStart(site: Site, all: Endpoints)
    ensures RemoveAll(all, PrunedNames(site, Filter(IsToCluster(site.wc), all))) == Prune(site, all)
  {
    FilterWeaker(IsToCluster(site.wc), IsPrunable(site), all);
  }

  class EndpointsService {
    const endpointsScope: EndpointsScope
    const linksScope: LinksScope

    constructor (endpointsScope: EndpointsScope, linksScope: LinksScope)
      ensures this.endpointsScope == endpointsScope && this.linksScope == linksScope
    {
      this.endpointsScope := endpointsScope;
      this.linksScope := linksScope;
    }

    ghost function TheSite(): Site {
      Site(endpointsScope.cluster, linksScope.wc.stored.info, linksScope.privateLinks)
    }

    ghost function TheOracle(): IpOracle {
      OracleOf(endpointsScope.client, endpointsScope.cluster.resourceGroup)
    }

    method Wanted(link: PrivateLink) returns (wanted: PrivateEndpointSpec)
      ensures wanted == WantedSpec(TheSite(), link)
    {
      var wc := linksScope.wc.stored.info;
      var approved := Util.ConvertToStringSlice(link.autoApprovedSubscriptions);
      var manualApproval := endpointsScope.cluster.subscriptionID !in approved[..];
      assert manualApproval == ManualApproval(TheSite(), link);
      var requestMessage := "";
      if manualApproval {
        requestMessage := "Giant Swarm azure-private-endpoint-operator that is running in management cluster "
            + endpointsScope.cluster.id.name
          + " created private endpoint in order to access private workload cluster " + wc.id.name;
      }
      wanted := PrivateEndpointSpec(
        link.name + "-privateendpoint",
        endpointsScope.cluster.location,
        [PrivateLinkServiceConnection(link.name + "-connection", IDOf(wc, link.name), requestMessage)],
        manualApproval);
    }

    method ReconcileMcToWcApi() returns (failure: Option<Error>)
      requires endpointsScope.endpoints.Valid()
      modifies endpointsScope.endpoints, endpointsScope.endpoints.data, linksScope.wc`annotations
      ensures endpointsScope.endpoints.Valid()
      ensures endpointsScope.endpoints.data == old(endpointsScope.endpoints.data)
              || fresh(endpointsScope.endpoints.data)
      ensures Ensured(endpointsScope.endpoints.Contents(), linksScope.wc.annotations, failure)
           == Spec.ReconcileMcToWcApi(TheSite(), IsTrue(linksScope.wc.conditions, PRIVATE_LINKS_READY), TheOracle(),
                                      old(endpointsScope.endpoints.Contents()), old(linksScope.wc.annotations))
    {
      var endpoints, wc := endpointsScope.endpoints, linksScope.wc;
      var links := linksScope.GetPrivateLinksWithAllowedSubscription(endpointsScope.cluster.subscriptionID);
      assert links == AllowedLinks(TheSite());
      if |links| == 0 {
        return Some(SubscriptionCannotConnectToPrivateLink);
      }
      var ready := linksScope.PrivateLinksReady();
      if !ready {
        return Some(PrivateLinksNotReady);
      }
      failure := AddWanted(links);
      if failure.None? {
        RemoveUnused();
      }
    }

    /** The first loop of ReconcileMcToWcApi. */
    method AddWanted(links: seq<PrivateLink>) returns (failure: Option<Error>)
      requires endpointsScope.endpoints.Valid()
      requires links == AllowedLinks(TheSite())
      modifies endpointsScope.endpoints, endpointsScope.endpoints.data, linksScope.wc`annotations
      ensures endpointsScope.endpoints.Valid()
      ensures endpointsScope.endpoints.data == old(endpointsScope.endpoints.data)
              || fresh(endpointsScope.endpoints.data)
      ensures Ensured(endpointsScope.endpoints.Contents(), linksScope.wc.annotations, failure)
           == EnsureEndpoints(WantedSpecs(TheSite()), API_SERVER_ANNOTATION, TheOracle(),
                              old(endpointsScope.endpoints.Contents()), old(linksScope.wc.annotations))
    {
      var endpoints, wc := endpointsScope.endpoints, linksScope.wc;
      ghost var specs := WantedSpecs(TheSite());
      ghost var outcome := EnsureEndpoints(specs, API_SERVER_ANNOTATION, TheOracle(), endpoints.Contents(),
                                           wc.annotations);
      for i := 0 to |links|
        invariant endpoints.Valid() && (endpoints.data == old(endpoints.data) || fresh(endpoints.data))
        invariant EnsureEndpoints(specs[i..], API_SERVER_ANNOTATION, TheOracle(), endpoints.Contents(), wc.annotations)
                  == outcome
      {
        assert specs[i..][0] == specs[i] && specs[i..][1..] == specs[i + 1..];
        var wanted := Wanted(links[i]);
        endpointsScope.AddPrivateEndpointSpec(wanted);
        var ip := endpointsScope.GetPrivateEndpointIPAddress(wanted.name);
        if ip.Err? {
          return Some(ip.error);
        }
        linksScope.SetPrivateEndpointIPAddressForWcApi(ip.value);
      }
      return None;
    }

    method IsUsed(endpoint: PrivateEndpointSpec) returns (used: bool)
      ensures used == Used(TheSite(), endpoint)
    {
      used := false;
      for j := 0 to |endpoint.connections|
        invariant used <==>
                  exists k ::
                    0 <= k < j
                    && FirstWithID(TheSite().wc, TheSite().links, endpoint.connections[k].privateLinkServiceID).Some?
      {
        var link := linksScope.LookupPrivateLink(endpoint.connections[j].privateLinkServiceID);
        if link.Some? {
          used := true;
        }
      }
    }

    /** The second loop of ReconcileMcToWcApi: it walks a snapshot while the list shrinks. */
    method RemoveUnused()
      requires endpointsScope.endpoints.Valid()
      modifies endpointsScope.endpoints`length, endpointsScope.endpoints.data
      ensures endpointsScope.endpoints.Valid()
      ensures endpointsScope.endpoints.Contents() == Prune(TheSite(), old(endpointsScope.endpoints.Contents()))
    {
      var endpoints := endpointsScope.endpoints;
      ghost var site, all := TheSite(), endpoints.Contents();
      ghost var goal := Prune(site, all);
      var toCluster := endpointsScope.GetPrivateEndpointsToWorkloadCluster(linksScope.wc.stored.info);
      ghost var scanned := toCluster.Contents();
      PruneStart(site, all);
      assert scanned[0..] == scanned;
      for i := 0 to toCluster.length
        invariant endpoints.Valid() && endpoints.data == old(endpoints.data)
        invariant fresh(toCluster) && fresh(toCluster.data)
        invariant toCluster.Valid() && toCluster.length == |scanned| && toCluster.Contents() == scanned
        invariant RemoveAll(endpoints.Contents(), PrunedNames(site, scanned[i..])) == goal
      {
        var endpoint := toCluster.data[i];
        assert endpoint == toCluster.Contents()[i];
        PruneStep(site, all, scanned, i, endpoints.Contents());
        var used := IsUsed(endpoint);
        if !used {
          endpointsScope.RemovePrivateEndpointByName(endpoint.name);
        }
      }
      assert PrunedNames(site, scanned[|scanned|..]) == [];
    }

    method ReconcileWcToMcIngress(specs: Endpoints) returns (failure: Option<Error>)
      requires endpointsScope.endpoints.Valid()
      modifies endpointsScope.endpoints, endpointsScope.endpoints.data, linksScope.wc`annotations,
          linksScope.wc`conditions
      ensures endpointsScope.endpoints.Valid()
      ensures endpointsScope.endpoints.data == old(endpointsScope.endpoints.data)
              || fresh(endpointsScope.endpoints.data)
      ensures Ingress(Ensured(endpointsScope.endpoints.Contents(), linksScope.wc.annotations, failure),
                      linksScope.wc.conditions)
           == Spec.ReconcileWcToMcIngress(specs, TheOracle(), old(endpointsScope.endpoints.Contents()),
                                          old(linksScope.wc.annotations), old(linksScope.wc.conditions))
    {
      var endpoints, wc := endpointsScope.endpoints, linksScope.wc;
      ghost var outcome := EnsureEndpoints(specs, MC_INGRESS_ANNOTATION, TheOracle(), endpoints.Contents(),
                                           wc.annotations);
      for i := 0 to |specs|
        invariant endpoints.Valid() && (endpoints.data == old(endpoints.data) || fresh(endpoints.data))
        invariant wc.conditions == old(wc.conditions)
        invariant EnsureEndpoints(specs[i..], MC_INGRESS_ANNOTATION, TheOracle(), endpoints.Contents(), wc.annotations)
                  == outcome
      {
        assert specs[i..][0] == specs[i] && specs[i..][1..] == specs[i + 1..];
        endpointsScope.AddPrivateEndpointSpec(specs[i]);
        var ip := endpointsScope.GetPrivateEndpointIPAddress(specs[i].name);
        if ip.Err? {
          return Some(ip.error);
        }
        linksScope.SetPrivateEndpointIPAddressForMcIngress(ip.value);
      }
      var ready := wc.IsConditionTrue(GS_PRIVATE_LINKS_READY);
      if !ready {
        wc.SetCondition(Condition(GS_PRIVATE_LINKS_READY, ConditionTrue));
      }
      return None;
    }

    method DeleteMcToWcApi()
      requires endpointsScope.endpoints.Valid()
      modifies endpointsScope.endpoints`length, endpointsScope.endpoints.data
      ensures endpointsScope.endpoints.Valid()
      ensures endpointsScope.endpoints.Contents()
              == Spec.DeleteMcToWcApi(TheSite(), old(endpointsScope.endpoints.Contents()))
    {
      var endpoints := endpointsScope.endpoints;
      var links := linksScope.GetPrivateLinksWithAllowedSubscription(endpointsScope.cluster.subscriptionID);
      ghost var names := Names(WantedSpecs(TheSite()));
      ghost var goal := RemoveAll(endpoints.Contents(), names);
      for i := 0 to |links|
        invariant endpoints.Valid()
        invariant RemoveAll(endpoints.Contents(), names[i..]) == goal
      {
        assert names[i..][0] == names[i] && names[i..][1..] == names[i + 1..];
        endpointsScope.RemovePrivateEndpointByName(links[i].name + "-privateendpoint");
      }
    }
  }
}
