/** Many workload clusters at once on the management cluster's one list: each keeps its endpoints and makes
    its progress, whatever runs and deletions of the others come in between. */
module ManyClusters {
  import opened Types
  import opened Sequences
  import opened EndpointLists
  import opened ServiceSpec
  import opened Reconciliation
  import opened Isolation
  import opened Convergence

  // ---- one list, several sites

  /** Two clusters that the operator cannot mistake for one another. */
  predicate Unrelated(a: Site, b: Site) {
    && SlashFreeIDs(a.wc) && SlashFreeIDs(b.wc)
    && (a.wc.subscriptionID == b.wc.subscriptionID ==> !(a.wc.resourceGroup <= b.wc.resourceGroup))
    && forall k, l :: k in a.links && l in b.links ==> k.name != l.name
  }

  /** The endpoint is named after one of the cluster's links. */
  predicate BelongsTo(site: Site, e: PrivateEndpointSpec) {
    exists l :: l in site.links && e.name == EndpointName(l.name)
  }

  /** No endpoint named after a link of `b` has a connection that counts as one to `a`. */
  predicate Apart(a: Site, b: Site, list: Endpoints) {
    forall e :: e in list && BelongsTo(b, e) ==> !ToCluster(a.wc, e)
  }

  /** Every cluster's list invariant holds, and no two clusters share an endpoint. */
  ghost predicate Separate(sites: set<Site>, list: Endpoints) {
    && (forall b :: b in sites ==> ListInvariant(b, list))
    && (forall a, b :: a in sites && b in sites && a != b ==> Unrelated(a, b) && Apart(a, b, list))
  }

  /** What one cluster does to the list: add an endpoint, reconcile with any outcome, or delete. */
  datatype Turn = Turn(site: Site, op: Operation)

  predicate TurnOf(sites: set<Site>, t: Turn) {
    t.site in sites && !t.op.RemoveNamed?
  }

  function Take(t: Turn, list: Endpoints): Endpoints {
    Apply(t.site, t.op, list)
  }

  function TakeAll(turns: seq<Turn>, list: Endpoints): Endpoints
    decreases |turns|
  {
    if turns == [] then list else TakeAll(turns[1..], Take(turns[0], list))
  }

  lemma WantedBelongs(site: Site, e: PrivateEndpointSpec)
    requires Wants(site, e.name)
    ensures BelongsTo(site, e)
  {
    var i :| 0 <= i < |WantedSpecs(site)| && WantedSpecs(site)[i].name == e.name;
    assert WantedSpecs(site)[i] in WantedSpecs(site);
    var l := WantedComesFromLink(site, WantedSpecs(site)[i]);
  }

  lemma UnrelatedNames(a: Site, b: Site, e: PrivateEndpointSpec)
    requires Unrelated(a, b) && BelongsTo(a, e)
    ensures !BelongsTo(b, e)
  {
    var k :| k in a.links && e.name == EndpointName(k.name);
    forall l | l in b.links ensures e.name != EndpointName(l.name) {
      EndpointNameInjective(k.name, l.name);
    }
  }

  lemma WantedIsApart(a: Site, b: Site, e: PrivateEndpointSpec)
    requires Unrelated(a, b) && e in WantedSpecs(b)
    ensures !ToCluster(a.wc, e)
  {
    var l := WantedComesFromLink(b, e);
    ForeignClusters(a.wc, b, l);
  }

  lemma EnsuredMembers(site: Site, ip: IpOracle, list: Endpoints, e: PrivateEndpointSpec)
    ensures var ensured := EnsureEndpoints(WantedSpecs(site), API_SERVER_ANNOTATION, ip, list, map[]).list;
            && (e in list ==> e in ensured)
            && (e in ensured ==> e in list || e in WantedSpecs(site))
  {
    EnsureAdds(WantedSpecs(site), API_SERVER_ANNOTATION, ip, list, map[]);
    AddAllAppends(list, Tried(WantedSpecs(site), ip));
    AddedMembers(list, Tried(WantedSpecs(site), ip));
  }

  /** A turn brings in nothing but what its cluster wants. */
  lemma TurnMembers(t: Turn, list: Endpoints, e: PrivateEndpointSpec)
    requires UniqueNames(list) && !t.op.RemoveNamed? && e in Take(t, list)
    ensures e in list || e in WantedSpecs(t.site)
  {
    match t.op {
      case AddWanted(link) =>
        if link in AllowedLinks(t.site) {
          var i :| 0 <= i < |AllowedLinks(t.site)| && AllowedLinks(t.site)[i] == link;
          assert WantedSpecs(t.site)[i] in WantedSpecs(t.site);
        }
      case Reconcile(ready, ip) =>
        EnsuredMembers(t.site, ip, list, e);
        if ReconcileMcToWcApi(t.site, ready, ip, list, map[]).failure.None? {
          SuccessfulList(t.site, ready, ip, list, map[]);
          FilterMember(IsKept(t.site), list, e);
          AddedMembers(list, WantedSpecs(t.site));
        }
      case Delete =>
        DeleteLeavesNone(t.site, list);
    }
  }

  /** A turn takes away only what its cluster deletes or what leads to its cluster and to no link. */
  lemma TurnKeeps(t: Turn, list: Endpoints, e: PrivateEndpointSpec)
    requires UniqueNames(list) && !t.op.RemoveNamed? && e in list
    requires !Prunable(t.site, e) && (t.op.Delete? ==> !Wants(t.site, e.name))
    ensures e in Take(t, list)
  {
    match t.op {
      case AddWanted(link) =>
      case Reconcile(ready, ip) =>
        EnsuredMembers(t.site, ip, list, e);
        if ReconcileMcToWcApi(t.site, ready, ip, list, map[]).failure.None? {
          SuccessfulList(t.site, ready, ip, list, map[]);
          FilterMember(IsKept(t.site), list, e);
        }
      case Delete =>
        DeleteLeavesNone(t.site, list);
    }
  }

  /** No turn takes an endpoint named after a link from its cluster, but that cluster's own deletion. */
  lemma TurnKeepsOwned(sites: set<Site>, t: Turn, list: Endpoints, b: Site, e: PrivateEndpointSpec)
    requires Separate(sites, list) && TurnOf(sites, t) && b in sites
    requires e in list && BelongsTo(b, e) && !(t.op.Delete? && t.site == b)
    ensures e in Take(t, list)
  {
    if t.site == b {
      var l :| l in b.links && e.name == EndpointName(l.name);
      ConnectedIsUsed(b, e, l);
    } else if Wants(t.site, e.name) {
      WantedBelongs(t.site, e);
      UnrelatedNames(t.site, b, e);
    }
    TurnKeeps(t, list, e);
  }

  lemma TurnKeepsSeparate(sites: set<Site>, t: Turn, list: Endpoints)
    requires Separate(sites, list) && TurnOf(sites, t)
    ensures Separate(sites, Take(t, list))
  {
    var after := Take(t, list);
    assert ListInvariant(t.site, list);
    ApplyKeepsInvariant(t.site, t.op, list);
    forall b | b in sites && b != t.site ensures ListInvariant(b, after) {
      forall e, l | e in after && l in b.links && e.name == EndpointName(l.name) ensures ConnectsTo(b.wc, e, l.name) {
        InheritedFromOthers(sites, t, list, b, e);
      }
    }
    forall a, b | a in sites && b in sites && a != b ensures Apart(a, b, after) {
      forall e | e in after && BelongsTo(b, e) ensures !ToCluster(a.wc, e) {
        assert Unrelated(a, b) && Apart(a, b, list);
        if e !in list {
          TurnMembers(t, list, e);
          if b != t.site {
            InheritedFromOthers(sites, t, list, b, e);
          }
          WantedIsApart(a, b, e);
        }
      }
    }
  }

  lemma InheritedFromOthers(sites: set<Site>, t: Turn, list: Endpoints, b: Site, e: PrivateEndpointSpec)
    requires Separate(sites, list) && TurnOf(sites, t) && b in sites && b != t.site
    requires e in Take(t, list) && BelongsTo(b, e)
    ensures e in list
  {
    assert ListInvariant(t.site, list);
    TurnMembers(t, list, e);
    if e in WantedSpecs(t.site) {
      var i :| 0 <= i < |WantedSpecs(t.site)| && WantedSpecs(t.site)[i] == e;
      WantedBelongs(t.site, e);
      assert Unrelated(t.site, b);
      UnrelatedNames(t.site, b, e);
    }
  }

  lemma TurnKeepsName(sites: set<Site>, t: Turn, list: Endpoints, b: Site, name: string)
    requires Separate(sites, list) && TurnOf(sites, t) && b in sites && b != t.site
    requires Wants(b, name) && HasName(list, name)
    ensures HasName(Take(t, list), name)
  {
    var after := Take(t, list);
    var k :| 0 <= k < |list| && list[k].name == name;
    WantedBelongs(b, list[k]);
    TurnKeepsOwned(sites, t, list, b, list[k]);
    var m :| 0 <= m < |after| && after[m] == list[k];
  }

  /** Another cluster's turn leaves every wanted name in the list. */
  lemma TurnPersists(sites: set<Site>, t: Turn, list: Endpoints, b: Site)
    requires Separate(sites, list) && TurnOf(sites, t) && b in sites && b != t.site
    ensures Persists(WantedSpecs(b), list, Take(t, list))
  {
    var specs := WantedSpecs(b);
    forall i | 0 <= i < |specs| && HasName(list, specs[i].name) ensures HasName(Take(t, list), specs[i].name) {
      TurnKeepsName(sites, t, list, b, specs[i].name);
    }
  }

  /** Over every interleaving of turns of unrelated clusters, each keeps its list invariant and its endpoints apart. */
  lemma {:induction false} SeparateOverTurns(sites: set<Site>, turns: seq<Turn>, list: Endpoints)
    requires Separate(sites, list) && forall t :: t in turns ==> TurnOf(sites, t)
    ensures Separate(sites, TakeAll(turns, list))
    decreases |turns|
  {
    if turns != [] {
      assert turns[0] in turns && forall t :: t in turns[1..] ==> t in turns;
      TurnKeepsSeparate(sites, turns[0], list);
      SeparateOverTurns(sites, turns[1..], Take(turns[0], list));
    }
  }

  /** And no endpoint named after a link is lost before its own cluster is deleted. */
  lemma {:induction false} EndpointsPersist(sites: set<Site>, turns: seq<Turn>, list: Endpoints, b: Site,
                                            e: PrivateEndpointSpec)
    requires Separate(sites, list) && forall t :: t in turns ==> TurnOf(sites, t)
    requires b in sites && e in list && BelongsTo(b, e)
    requires forall t :: t in turns ==> !(t.op.Delete? && t.site == b)
    ensures e in TakeAll(turns, list)
    decreases |turns|
  {
    if turns != [] {
      assert turns[0] in turns && forall t :: t in turns[1..] ==> t in turns;
      TurnKeepsSeparate(sites, turns[0], list);
      TurnKeepsOwned(sites, turns[0], list, b, e);
      EndpointsPersist(sites, turns[1..], Take(turns[0], list), b, e);
    }
  }
}
