/** Several workload clusters share the management cluster's list: what one may do to another's endpoints. */
module Isolation {
  import opened Types
  import opened Sequences
  import opened ResourceIds
  import opened PrivateLinks
  import opened EndpointLists
  import opened ServiceSpec
  import opened Pruning
  import opened Reconciliation

  function IsForeign(wc: ClusterInfo): PrivateEndpointSpec -> bool {
    (e: PrivateEndpointSpec) => !ToCluster(wc, e)
  }

  /** The endpoints without a connection to the cluster, in list order. */
  function Foreign(wc: ClusterInfo, list: Endpoints): Endpoints {
    Filter(IsForeign(wc), list)
  }

  lemma EnsureKeepsForeign(site: Site, ip: IpOracle, list: Endpoints, annotations: map<string, string>)
    ensures Foreign(site.wc, EnsureEndpoints(WantedSpecs(site), API_SERVER_ANNOTATION, ip, list, annotations).list)
         == Foreign(site.wc, list)
  {
    var tried := Tried(WantedSpecs(site), ip);
    var added := Added(list, tried);
    EnsureAdds(WantedSpecs(site), API_SERVER_ANNOTATION, ip, list, annotations);
    AddAllAppends(list, tried);
    AddedMembers(list, tried);
    WantedNotPrunable(site);
    FilterAppend(IsForeign(site.wc), list, added);
    FilterNone(IsForeign(site.wc), added);
  }

  /** Pruning reaches no foreign endpoint: each has as many namesakes to its right as there are prunable ones. */
  predicate ForeignOutlast(site: Site, list: Endpoints) {
    forall i: nat :: i < |list| && !ToCluster(site.wc, list[i]) ==> Outlasts(site, list, i)
  }

  /** A run for one cluster neither removes nor moves nor edits an endpoint that has no connection to that
      cluster, if and only if it fails or no foreign endpoint stands where pruning by name takes it. */
  lemma ReconcileKeepsForeign(site: Site, ready: bool, ip: IpOracle, list: Endpoints, annotations: map<string, string>)
    ensures Foreign(site.wc, ReconcileMcToWcApi(site, ready, ip, list, annotations).list) == Foreign(site.wc, list)
       <==> (ReconcileMcToWcApi(site, ready, ip, list, annotations).failure.None? ==> ForeignOutlast(site, list))
  {
    EnsureKeepsForeign(site, ip, list, annotations);
    if ReconcileMcToWcApi(site, ready, ip, list, annotations).failure.None? {
      var added := Added(list, WantedSpecs(site));
      SuccessfulPrune(site, ready, ip, list, annotations);
      AddedMembers(list, WantedSpecs(site));
      WantedNotPrunable(site);
      FilterAppend(IsForeign(site.wc), Prune(site, list), added);
      FilterNone(IsForeign(site.wc), added);
      PruneKeeps(site, IsForeign(site.wc), list);
    }
  }

  /** Without duplicates nothing foreign is ever touched. */
  lemma UniqueForeignOutlast(site: Site, list: Endpoints)
    requires UniqueNames(list)
    ensures ForeignOutlast(site, list)
  {
    forall i: nat | i < |list| && !ToCluster(site.wc, list[i]) ensures Outlasts(site, list, i) {
      OutlastsUnique(site, list, i);
    }
  }

  /** With duplicates another cluster's endpoint can go: pruning takes the foreign namesake on the right
      and spares the unused endpoint it was after. */
  lemma ForeignNamesakeIsLost(site: Site, ip: IpOracle, own: PrivateEndpointSpec, foreign: PrivateEndpointSpec)
    requires ReconcileMcToWcApi(site, true, ip, [own, foreign], map[]).failure.None?
    requires own.name == foreign.name && Prunable(site, own) && !ToCluster(site.wc, foreign)
    ensures own in ReconcileMcToWcApi(site, true, ip, [own, foreign], map[]).list
    ensures foreign !in ReconcileMcToWcApi(site, true, ip, [own, foreign], map[]).list
  {
    var list := [own, foreign];
    SuccessfulPrune(site, true, ip, list, map[]);
    PruneTakesTheNamesake(site, own, foreign);
    assert list[1].name == foreign.name;
    AddedMembers(list, WantedSpecs(site));
  }

  // ---- deletion

  /** Entry i has at least as many namesakes to its right as deletion removes endpoints of its name. */
  predicate OutlastsDelete(site: Site, list: Endpoints, i: nat)
    requires i < |list|
  {
    CountName(list[i + 1..], list[i].name) >= CountName(WantedSpecs(site), list[i].name)
  }

  lemma SurvivesDelete(site: Site, list: Endpoints, counts: multiset<string>, i: nat)
    requires counts == multiset(Names(WantedSpecs(site))) && i < |list|
    ensures Survives(list, counts, i) <==> OutlastsDelete(site, list, i)
  {
    NamesCount(WantedSpecs(site), list[i].name);
  }

  /** Deletion goes by name alone, so it keeps foreign endpoints exactly when it reaches none of them. */
  lemma DeleteKeepsForeign(site: Site, list: Endpoints)
    ensures Foreign(site.wc, DeleteMcToWcApi(site, list)) == Foreign(site.wc, list)
       <==> forall i: nat :: i < |list| && !ToCluster(site.wc, list[i]) ==> OutlastsDelete(site, list, i)
  {
    var counts := multiset(Names(WantedSpecs(site)));
    RemoveAllRightmost(list, Names(WantedSpecs(site)));
    SurvivorsFilter(IsForeign(site.wc), list, counts);
    forall i: nat | i < |list| ensures Survives(list, counts, i) <==> OutlastsDelete(site, list, i) {
      SurvivesDelete(site, list, counts, i);
    }
  }

  /** Which entries deletion leaves, duplicates or not. */
  lemma DeleteMember(site: Site, list: Endpoints, e: PrivateEndpointSpec)
    ensures e in DeleteMcToWcApi(site, list)
       <==> exists i: nat :: i < |list| && list[i] == e && OutlastsDelete(site, list, i)
  {
    var counts := multiset(Names(WantedSpecs(site)));
    RemoveAllRightmost(list, Names(WantedSpecs(site)));
    SurvivorsMember(list, counts, e);
    forall i: nat | i < |list| ensures Survives(list, counts, i) <==> OutlastsDelete(site, list, i) {
      SurvivesDelete(site, list, counts, i);
    }
  }

  /** Deletion leaves no entry with p exactly when it reaches all of them. */
  lemma DeleteLeavesNo(site: Site, p: PrivateEndpointSpec -> bool, list: Endpoints)
    ensures (forall e :: e in DeleteMcToWcApi(site, list) ==> !p(e))
       <==> forall i: nat :: i < |list| && p(list[i]) ==> !OutlastsDelete(site, list, i)
  {
    if e :| e in DeleteMcToWcApi(site, list) && p(e) {
      DeleteMember(site, list, e);
    }
    if i: nat :| i < |list| && p(list[i]) && OutlastsDelete(site, list, i) {
      DeleteMember(site, list, list[i]);
    }
  }

  /** And it leaves nothing that leads to the cluster exactly when it reaches all of that. */
  lemma DeleteLeavesNothing(site: Site, list: Endpoints)
    ensures (forall e :: e in DeleteMcToWcApi(site, list) ==> !ToCluster(site.wc, e))
       <==> forall i: nat :: i < |list| && ToCluster(site.wc, list[i]) ==> !OutlastsDelete(site, list, i)
  {
    DeleteLeavesNo(site, IsToCluster(site.wc), list);
  }

  /** Without duplicates deletion reaches exactly the endpoints with a wanted name. */
  lemma OutlastsDeleteUnique(site: Site, list: Endpoints, i: nat)
    requires UniqueNames(list) && i < |list|
    ensures OutlastsDelete(site, list, i) <==> !Wants(site, list[i].name)
  {
    var rest := list[i + 1..];
    CountPositive(rest, list[i].name);
    CountPositive(WantedSpecs(site), list[i].name);
    forall k | 0 <= k < |rest| ensures rest[k].name != list[i].name {
      assert rest[k] == list[i + 1 + k];
    }
  }

  // ---- which clusters are foreign to each other

  predicate SlashFreeIDs(c: ClusterInfo) {
    SlashFree(c.subscriptionID) && SlashFree(c.resourceGroup)
  }

  /** The operator takes an endpoint it made for `other` as leading to `wc` exactly when the two share the
      subscription and other's resource group name starts with wc's. */
  lemma ForeignClusters(wc: ClusterInfo, other: Site, link: PrivateLink)
    requires SlashFreeIDs(wc) && SlashFree(other.wc.subscriptionID)
    ensures ToCluster(wc, WantedSpec(other, link))
       <==> wc.subscriptionID == other.wc.subscriptionID && wc.resourceGroup <= other.wc.resourceGroup
  {
    var e := WantedSpec(other, link);
    PrefixTestMeaning(wc.subscriptionID, wc.resourceGroup, other.wc.subscriptionID, other.wc.resourceGroup, link.name);
    assert e.connections[0].privateLinkServiceID == IDOf(other.wc, link.name);
  }

  lemma PrunableNeighbour(site: Site, other: Site, link: PrivateLink)
    requires SlashFreeIDs(site.wc) && SlashFreeIDs(other.wc)
    ensures Prunable(site, WantedSpec(other, link))
       <==> && site.wc.subscriptionID == other.wc.subscriptionID
            && site.wc.resourceGroup <= other.wc.resourceGroup
            && (site.wc.resourceGroup == other.wc.resourceGroup ==> forall l :: l in site.links ==> l.name != link.name)
  {
    var e := WantedSpec(other, link);
    var id := IDOf(other.wc, link.name);
    ForeignClusters(site.wc, other, link);
    assert e.connections[0].privateLinkServiceID == id;
    assert Used(site, e) <==> FirstWithID(site.wc, site.links, id).Some?;
    LookupFinds(site.wc, site.links, id);
    forall l | l in site.links
      ensures IDOf(site.wc, l.name) == id
         <==> && site.wc.subscriptionID == other.wc.subscriptionID
              && site.wc.resourceGroup == other.wc.resourceGroup
              && l.name == link.name
    {
      LinkIDInjective(site.wc.subscriptionID, site.wc.resourceGroup, l.name, other.wc.subscriptionID,
                      other.wc.resourceGroup, link.name);
    }
  }

  /** A successful run for `site` takes an endpoint made for `other` out of the list exactly when other's
      resource group name starts with site's in the same subscription, and either the groups differ or
      the link is gone. */
  lemma PrunesNeighbour(site: Site, other: Site, ready: bool, ip: IpOracle, list: Endpoints, link: PrivateLink)
    requires SlashFreeIDs(site.wc) && SlashFreeIDs(other.wc)
    requires UniqueNames(list) && WantedSpec(other, link) in list
    requires ReconcileMcToWcApi(site, ready, ip, list, map[]).failure.None?
    ensures WantedSpec(other, link) !in ReconcileMcToWcApi(site, ready, ip, list, map[]).list
       <==> && site.wc.subscriptionID == other.wc.subscriptionID
            && site.wc.resourceGroup <= other.wc.resourceGroup
            && (site.wc.resourceGroup == other.wc.resourceGroup ==> forall l :: l in site.links ==> l.name != link.name)
  {
    var e := WantedSpec(other, link);
    var i :| 0 <= i < |list| && list[i] == e;
    SuccessfulList(site, ready, ip, list, map[]);
    FilterMember(IsKept(site), list, e);
    AddedMembers(list, WantedSpecs(site));
    PrunableNeighbour(site, other, link);
  }

  /** A successful run for the cluster in resource group "a" empties the list of what was made for "a-b". */
  lemma NeighbourIsLost(site: Site, other: Site, ip: IpOracle, link: PrivateLink)
    requires site.wc.resourceGroup == "a" && other.wc.resourceGroup == "a-b"
    requires site.wc.subscriptionID == other.wc.subscriptionID && SlashFree(site.wc.subscriptionID)
    requires ReconcileMcToWcApi(site, true, ip, [WantedSpec(other, link)], map[]).failure.None?
    ensures WantedSpec(other, link) !in ReconcileMcToWcApi(site, true, ip, [WantedSpec(other, link)], map[]).list
  {
    assert "a" == "a-b"[..1];
    PrunesNeighbour(site, other, true, ip, [WantedSpec(other, link)], link);
  }

  /** And an endpoint made for a link of the same name in group "x" is taken for the own one of group "wc":
      its address goes into the annotation, and the link gets no endpoint. */
  lemma NeighbourTakenForOwn(site: Site, other: Site, ip: IpOracle, link: PrivateLink)
    requires site.wc.resourceGroup == "wc" && other.wc.resourceGroup == "x"
    requires SlashFree(site.wc.subscriptionID) && SlashFree(other.wc.subscriptionID)
    requires site.links == [link] && Allows(site.mc.subscriptionID)(link) && ip(EndpointName(link.name)).Ok?
    ensures ReconcileMcToWcApi(site, true, ip, [WantedSpec(other, link)], map[])
         == Ensured([WantedSpec(other, link)], map[API_SERVER_ANNOTATION := ip(EndpointName(link.name)).value], None)
    ensures !HasEndpoint(site, [WantedSpec(other, link)], link)
  {
    ForeignClusters(site.wc, other, link);
    assert !("wc" <= "x");
    NamesakeIsTrusted(site, link, WantedSpec(other, link), ip, map[]);
  }

  /** The deletion of the cluster in group "wc" takes the endpoint made for a link of the same name in group "x". */
  lemma NeighbourIsDeleted(site: Site, other: Site, link: PrivateLink)
    requires site.wc.resourceGroup == "wc" && other.wc.resourceGroup == "x"
    requires SlashFree(site.wc.subscriptionID) && SlashFree(other.wc.subscriptionID)
    requires site.links == [link] && Allows(site.mc.subscriptionID)(link)
    ensures !ToCluster(site.wc, WantedSpec(other, link))
    ensures DeleteMcToWcApi(site, [WantedSpec(other, link)]) == []
  {
    var list := [WantedSpec(other, link)];
    ForeignClusters(site.wc, other, link);
    assert !("wc" <= "x");
    OneLink(site, link);
    assert WantedSpecs(site)[0].name == list[0].name;
    DeleteIsFilter(site, list);
  }
}
