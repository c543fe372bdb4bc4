/** One service run on the management cluster's list: the list invariant, and what a successful run leaves behind. */
module Reconciliation {
  import opened Types
  import opened Sequences
  import opened ResourceIds
  import opened PrivateLinks
  import opened EndpointLists
  import opened ServiceSpec
  import opened Pruning
  import Util

  // ---- wanted endpoints are never prunable

  predicate ConnectsTo(wc: ClusterInfo, e: PrivateEndpointSpec, link: string) {
    exists i :: 0 <= i < |e.connections| && e.connections[i].privateLinkServiceID == IDOf(wc, link)
  }

  lemma ConnectedIsUsed(site: Site, e: PrivateEndpointSpec, l: PrivateLink)
    requires l in site.links && ConnectsTo(site.wc, e, l.name)
    ensures ToCluster(site.wc, e) && Used(site, e)
  {
    var i :| 0 <= i < |e.connections| && e.connections[i].privateLinkServiceID == IDOf(site.wc, l.name);
    OwnPrefix(site.wc.subscriptionID, site.wc.resourceGroup, l.name);
    LookupFinds(site.wc, site.links, e.connections[i].privateLinkServiceID);
  }

  lemma WantedConnects(site: Site, l: PrivateLink)
    ensures ConnectsTo(site.wc, WantedSpec(site, l), l.name)
  {
    assert WantedSpec(site, l).connections[0].privateLinkServiceID == IDOf(site.wc, l.name);
  }

  lemma WantedComesFromLink(site: Site, e: PrivateEndpointSpec) returns (l: PrivateLink)
    requires e in WantedSpecs(site)
    ensures l in AllowedLinks(site) && l in site.links && e == WantedSpec(site, l)
    ensures ToCluster(site.wc, e) && !Prunable(site, e)
  {
    var i :| 0 <= i < |WantedSpecs(site)| && WantedSpecs(site)[i] == e;
    l := AllowedLinks(site)[i];
    assert l in AllowedLinks(site);
    FilterMember(Allows(site.mc.subscriptionID), site.links, l);
    WantedConnects(site, l);
    ConnectedIsUsed(site, e, l);
  }

  lemma WantedNotPrunable(site: Site)
    ensures forall e :: e in WantedSpecs(site) ==> ToCluster(site.wc, e) && !Prunable(site, e)
  {
    forall e | e in WantedSpecs(site) ensures ToCluster(site.wc, e) && !Prunable(site, e) {
      var l := WantedComesFromLink(site, e);
    }
  }

  /** No manual approval is needed exactly for subscriptions on the auto-approved list, where a nil entry
      counts as the empty subscription. */
  lemma AutoApproved(site: Site, link: PrivateLink)
    ensures !ManualApproval(site, link)
       <==> || Some(site.mc.subscriptionID) in link.autoApprovedSubscriptions
            || (site.mc.subscriptionID == "" && None in link.autoApprovedSubscriptions)
  {
    var approved := link.autoApprovedSubscriptions;
    if Some(site.mc.subscriptionID) in approved {
      var i :| 0 <= i < |approved| && approved[i] == Some(site.mc.subscriptionID);
      assert Util.Deref(approved[i]) == site.mc.subscriptionID;
    } else if site.mc.subscriptionID == "" && None in approved {
      var i :| 0 <= i < |approved| && approved[i] == None;
      assert Util.Deref(approved[i]) == site.mc.subscriptionID;
    }
  }

  lemma EndpointNameInjective(a: string, b: string)
    ensures EndpointName(a) == EndpointName(b) <==> a == b
  {
    if EndpointName(a) == EndpointName(b) {
      assert |a| == |b|;
      assert a == EndpointName(a)[..|a|] && b == EndpointName(b)[..|b|];
    }
  }

  // ---- the list invariant

  /** Names are unique, and an endpoint named after a link of this cluster has a connection to that link. */
  predicate ListInvariant(site: Site, list: Endpoints) {
    UniqueNames(list) && OwnEndpointsConnect(site, list)
  }

  predicate OwnEndpointsConnect(site: Site, list: Endpoints) {
    forall e, l :: e in list && l in site.links && e.name == EndpointName(l.name) ==> ConnectsTo(site.wc, e, l.name)
  }

  lemma WantedKeepsConnect(site: Site, list: Endpoints, more: Endpoints)
    requires OwnEndpointsConnect(site, list)
    requires forall e :: e in more ==> e in WantedSpecs(site)
    ensures OwnEndpointsConnect(site, list + more)
  {
    forall e, l | e in list + more && l in site.links && e.name == EndpointName(l.name)
      ensures ConnectsTo(site.wc, e, l.name)
    {
      if e !in list {
        var l' := WantedComesFromLink(site, e);
        EndpointNameInjective(l.name, l'.name);
        WantedConnects(site, l');
      }
    }
  }

  lemma RemovalKeepsInvariant(site: Site, list: Endpoints, names: seq<string>)
    requires ListInvariant(site, list)
    ensures ListInvariant(site, RemoveAll(list, names))
  {
    RemoveAllRightmost(list, names);
    SurvivorsMembers(list, multiset(names));
  }

  lemma EnsureKeepsInvariant(site: Site, key: string, ip: IpOracle, list: Endpoints, annotations: map<string, string>)
    requires ListInvariant(site, list)
    ensures ListInvariant(site, EnsureEndpoints(WantedSpecs(site), key, ip, list, annotations).list)
  {
    var tried := Tried(WantedSpecs(site), ip);
    EnsureAdds(WantedSpecs(site), key, ip, list, annotations);
    AddAllUnique(list, tried);
    AddAllAppends(list, tried);
    AddedMembers(list, tried);
    WantedKeepsConnect(site, list, Added(list, tried));
  }

  lemma ReconcileKeepsInvariant(site: Site, ready: bool, ip: IpOracle, list: Endpoints,
                                annotations: map<string, string>)
    requires ListInvariant(site, list)
    ensures ListInvariant(site, ReconcileMcToWcApi(site, ready, ip, list, annotations).list)
  {
    EnsureKeepsInvariant(site, API_SERVER_ANNOTATION, ip, list, annotations);
    var ensured := EnsureEndpoints(WantedSpecs(site), API_SERVER_ANNOTATION, ip, list, annotations).list;
    RemovalKeepsInvariant(site, ensured, PrunedNames(site, ensured));
  }

  /** Everything the service does to the management cluster's list for one workload cluster. */
  datatype Operation =
    | AddWanted(link: PrivateLink)
    | RemoveNamed(name: string)
    | Reconcile(ready: bool, ip: IpOracle)
    | Delete

  function Apply(site: Site, op: Operation, list: Endpoints): Endpoints {
    match op
    case AddWanted(link) => if link in AllowedLinks(site) then AddSpec(list, WantedSpec(site, link)) else list
    case RemoveNamed(name) => RemoveByName(list, name)
    case Reconcile(ready, ip) => ReconcileMcToWcApi(site, ready, ip, list, map[]).list
    case Delete => DeleteMcToWcApi(site, list)
  }

  function ApplyAll(site: Site, ops: seq<Operation>, list: Endpoints): Endpoints
    decreases |ops|
  {
    if ops == [] then list else ApplyAll(site, ops[1..], Apply(site, ops[0], list))
  }

  lemma AddKeepsInvariant(site: Site, link: PrivateLink, list: Endpoints)
    requires ListInvariant(site, list) && link in AllowedLinks(site)
    ensures ListInvariant(site, AddSpec(list, WantedSpec(site, link)))
  {
    var i :| 0 <= i < |AllowedLinks(site)| && AllowedLinks(site)[i] == link;
    assert WantedSpecs(site)[i] in WantedSpecs(site);
    AddUnique(list, WantedSpec(site, link));
    WantedKeepsConnect(site, list, [WantedSpec(site, link)]);
  }

  lemma ApplyKeepsInvariant(site: Site, op: Operation, list: Endpoints)
    requires ListInvariant(site, list)
    ensures ListInvariant(site, Apply(site, op, list))
  {
    match op {
      case AddWanted(link) =>
        if link in AllowedLinks(site) {
          AddKeepsInvariant(site, link, list);
        }
      case RemoveNamed(name) =>
        assert [name][1..] == [];
        assert RemoveAll(list, [name]) == RemoveByName(list, name);
        RemovalKeepsInvariant(site, list, [name]);
      case Reconcile(ready, ip) =>
        ReconcileKeepsInvariant(site, ready, ip, list, map[]);
      case Delete =>
        RemovalKeepsInvariant(site, list, Names(WantedSpecs(site)));
    }
  }

  lemma {:induction false} InvariantOverRuns(site: Site, ops: seq<Operation>, list: Endpoints)
    requires ListInvariant(site, list)
    ensures ListInvariant(site, ApplyAll(site, ops, list))
    decreases |ops|
  {
    if ops != [] {
      ApplyKeepsInvariant(site, ops[0], list);
      InvariantOverRuns(site, ops[1..], Apply(site, ops[0], list));
    }
  }

  // ---- a successful run

  /** A run succeeds exactly when some link allows the management cluster, the links are ready and every wanted
      endpoint has an IP. */
  lemma SuccessCondition(site: Site, ready: bool, ip: IpOracle, list: Endpoints, annotations: map<string, string>)
    ensures ReconcileMcToWcApi(site, ready, ip, list, annotations).failure.None?
       <==> AllowedLinks(site) != [] && ready && forall e :: e in WantedSpecs(site) ==> ip(e.name).Ok?
  {
    var specs := WantedSpecs(site);
    EnsureFails(specs, API_SERVER_ANNOTATION, ip, list, annotations);
    var k := FirstFailure(specs, ip);
    if k < |specs| {
      assert specs[k] in specs;
    }
  }

  /** The first endpoint without an IP is one whose IP may still come. */
  predicate FailsRetriably(specs: Endpoints, ip: IpOracle) {
    FirstFailure(specs, ip) < |specs| && IsRetriable(ip(specs[FirstFailure(specs, ip)].name).error)
  }

  /** When it fails: without an allowed link or before the links are ready nothing was touched, and the
      failure is one to try again exactly if the links are not ready or the first missing IP may still come. */
  lemma FailureKind(site: Site, ready: bool, ip: IpOracle, list: Endpoints, annotations: map<string, string>)
    requires ReconcileMcToWcApi(site, ready, ip, list, annotations).failure.Some?
    ensures AllowedLinks(site) == [] || !ready ==>
              ReconcileMcToWcApi(site, ready, ip, list, annotations).(failure := None)
              == Ensured(list, annotations, None)
    ensures IsRetriable(ReconcileMcToWcApi(site, ready, ip, list, annotations).failure.value)
       <==> AllowedLinks(site) != [] && (ready ==> FailsRetriably(WantedSpecs(site), ip))
  {
    EnsureFails(WantedSpecs(site), API_SERVER_ANNOTATION, ip, list, annotations);
  }

  lemma PrunedNamesOccur(site: Site, list: Endpoints, name: string)
    requires name in PrunedNames(site, list)
    ensures HasName(list, name)
  {
    var prunable := Filter(IsPrunable(site), list);
    var i :| 0 <= i < |prunable| && prunable[i].name == name;
    assert prunable[i] in prunable;
    FilterMember(IsPrunable(site), list, prunable[i]);
    var m :| 0 <= m < |list| && list[m] == prunable[i];
  }

  /** The added endpoints neither get pruned nor change what pruning does to the others. */
  lemma PrunedBeforeAdded(site: Site, list: Endpoints)
    ensures Prune(site, list + Added(list, WantedSpecs(site))) == Prune(site, list) + Added(list, WantedSpecs(site))
  {
    var added := Added(list, WantedSpecs(site));
    AddedMembers(list, WantedSpecs(site));
    WantedNotPrunable(site);
    FilterAppend(IsPrunable(site), list, added);
    FilterNone(IsPrunable(site), added);
    assert Filter(IsPrunable(site), list + added) == Filter(IsPrunable(site), list);
    forall n | n in PrunedNames(site, list) ensures !HasName(added, n) {
      PrunedNamesOccur(site, list, n);
      AddedNamesAreNew(list, WantedSpecs(site), n);
    }
    RemoveAllLeavesSuffix(list, added, PrunedNames(site, list));
  }

  /** What a successful run does to any list: prune what was there and append what is new. */
  lemma SuccessfulPrune(site: Site, ready: bool, ip: IpOracle, list: Endpoints, annotations: map<string, string>)
    requires ReconcileMcToWcApi(site, ready, ip, list, annotations).failure.None?
    ensures ReconcileMcToWcApi(site, ready, ip, list, annotations).list
         == Prune(site, list) + Added(list, WantedSpecs(site))
  {
    var specs := WantedSpecs(site);
    EnsureFails(specs, API_SERVER_ANNOTATION, ip, list, annotations);
    EnsureAdds(specs, API_SERVER_ANNOTATION, ip, list, annotations);
    AddAllAppends(list, specs);
    PrunedBeforeAdded(site, list);
  }

  /** What it does to a list without duplicates. */
  lemma SuccessfulList(site: Site, ready: bool, ip: IpOracle, list: Endpoints, annotations: map<string, string>)
    requires UniqueNames(list)
    requires ReconcileMcToWcApi(site, ready, ip, list, annotations).failure.None?
    ensures ReconcileMcToWcApi(site, ready, ip, list, annotations).list
         == Filter(IsKept(site), list) + Added(list, WantedSpecs(site))
    ensures UniqueNames(Filter(IsKept(site), list) + Added(list, WantedSpecs(site)))
  {
    var added := Added(list, WantedSpecs(site));
    SuccessfulPrune(site, ready, ip, list, annotations);
    PruneUnique(site, list);
    AddedUnique(list, WantedSpecs(site));
    AddedMembers(list, WantedSpecs(site));
    forall e | e in added ensures !HasName(Prune(site, list), e.name) {
      PruneRemovesRightmost(site, list);
      CountPositive(list, e.name);
      CountPositive(Prune(site, list), e.name);
    }
    UniqueConcat(Prune(site, list), added);
  }

  /** And for the annotation: the IP of the last allowed link, whatever was in the list. */
  lemma SuccessfulAnnotations(site: Site, ready: bool, ip: IpOracle, list: Endpoints, annotations: map<string, string>)
    requires ReconcileMcToWcApi(site, ready, ip, list, annotations).failure.None?
    ensures var links := AllowedLinks(site);
            links != [] && ip(EndpointName(links[|links| - 1].name)).Ok?
            && ReconcileMcToWcApi(site, ready, ip, list, annotations).annotations
               == annotations[API_SERVER_ANNOTATION := ip(EndpointName(links[|links| - 1].name)).value]
  {
    var specs := WantedSpecs(site);
    EnsureFails(specs, API_SERVER_ANNOTATION, ip, list, annotations);
    assert FirstFailure(specs, ip) == |specs| > 0;
    EnsureNotes(specs, API_SERVER_ANNOTATION, ip, list, annotations);
    var last := |specs| - 1;
    assert specs[last].name == EndpointName(AllowedLinks(site)[last].name);
    assert ip(specs[last].name).Ok?;
  }

  predicate NoWantedPrunable(site: Site, list: Endpoints) {
    forall e :: e in list && Wants(site, e.name) ==> !Prunable(site, e)
  }

  /** Of each wanted name that the list carries, pruning leaves a bearer. */
  predicate NamesOutlast(site: Site, list: Endpoints) {
    forall e :: e in WantedSpecs(site) && HasName(list, e.name) ==>
        CountPrunable(site, list, e.name) < CountName(list, e.name)
  }

  lemma NameServed(site: Site, list: Endpoints, e: PrivateEndpointSpec)
    requires e in WantedSpecs(site)
    ensures HasName(Prune(site, list) + Added(list, WantedSpecs(site)), e.name)
       <==> (HasName(list, e.name) ==> CountPrunable(site, list, e.name) < CountName(list, e.name))
  {
    var specs := WantedSpecs(site);
    HasNameSplit(Prune(site, list), Added(list, specs), e.name);
    if HasName(list, e.name) {
      AddedNamesAreNew(list, specs, e.name);
      PruneRemovesRightmost(site, list);
      CountPositive(Prune(site, list), e.name);
    } else {
      AddAllCovers(list, specs);
      AddAllAppends(list, specs);
      HasNameSplit(list, Added(list, specs), e.name);
    }
  }

  /** After a successful run every wanted name is in the list, if and only if each that was there had more
      bearers than prunable ones: the add loop trusts the name, the prune loop does not. */
  lemma EveryNameServed(site: Site, ready: bool, ip: IpOracle, list: Endpoints, annotations: map<string, string>)
    requires ReconcileMcToWcApi(site, ready, ip, list, annotations).failure.None?
    ensures (forall e :: e in WantedSpecs(site) ==>
               HasName(ReconcileMcToWcApi(site, ready, ip, list, annotations).list, e.name))
       <==> NamesOutlast(site, list)
  {
    SuccessfulPrune(site, ready, ip, list, annotations);
    forall e | e in WantedSpecs(site)
      ensures HasName(Prune(site, list) + Added(list, WantedSpecs(site)), e.name)
         <==> (HasName(list, e.name) ==> CountPrunable(site, list, e.name) < CountName(list, e.name))
    {
      NameServed(site, list, e);
    }
  }

  /** Without duplicates: no endpoint that carries a wanted name is prunable. */
  lemma NamesOutlastUnique(site: Site, list: Endpoints)
    requires UniqueNames(list)
    ensures NamesOutlast(site, list) <==> NoWantedPrunable(site, list)
  {
    forall i: nat | i < |list|
      ensures CountPrunable(site, list, list[i].name) < CountName(list, list[i].name) <==> !Prunable(site, list[i])
    {
      CountPrunableUnique(site, list, i);
    }
    if NamesOutlast(site, list) {
      forall e | e in list && Wants(site, e.name) ensures !Prunable(site, e) {
        var i :| 0 <= i < |list| && list[i] == e;
        var s :| 0 <= s < |WantedSpecs(site)| && WantedSpecs(site)[s].name == e.name;
        assert WantedSpecs(site)[s] in WantedSpecs(site);
      }
    } else {
      var e :| e in WantedSpecs(site) && HasName(list, e.name)
               && CountPrunable(site, list, e.name) >= CountName(list, e.name);
      var i :| 0 <= i < |list| && list[i].name == e.name;
      assert list[i] in list && Wants(site, list[i].name);
    }
  }

  lemma InvariantProtectsWanted(site: Site, list: Endpoints)
    requires ListInvariant(site, list)
    ensures NoWantedPrunable(site, list)
  {
    forall e | e in list && Wants(site, e.name) ensures !Prunable(site, e) {
      var s :| 0 <= s < |WantedSpecs(site)| && WantedSpecs(site)[s].name == e.name;
      assert WantedSpecs(site)[s] in WantedSpecs(site);
      var l := WantedComesFromLink(site, WantedSpecs(site)[s]);
      ConnectedIsUsed(site, e, l);
    }
  }

  // ---- which links a successful run leaves with an endpoint of their own

  predicate IsEndpointOf(site: Site, e: PrivateEndpointSpec, l: PrivateLink) {
    e.name == EndpointName(l.name) && ConnectsTo(site.wc, e, l.name)
  }

  predicate HasEndpoint(site: Site, list: Endpoints, l: PrivateLink) {
    exists e :: e in list && IsEndpointOf(site, e, l)
  }

  /** The name of the link is free, or one of its bearers connects to the link and outlasts pruning. */
  predicate KeepsEndpoint(site: Site, list: Endpoints, l: PrivateLink) {
    HasName(list, EndpointName(l.name)) ==>
      exists i: nat :: i < |list| && IsEndpointOf(site, list[i], l) && Outlasts(site, list, i)
  }

  lemma AddedServes(site: Site, list: Endpoints, l: PrivateLink)
    requires l in AllowedLinks(site)
    ensures HasEndpoint(site, Added(list, WantedSpecs(site)), l) <==> !HasName(list, EndpointName(l.name))
  {
    var specs, added, name := WantedSpecs(site), Added(list, WantedSpecs(site)), EndpointName(l.name);
    AddedMembers(list, specs);
    if !HasName(list, name) {
      var i :| 0 <= i < |specs| && AllowedLinks(site)[i] == l;
      assert specs[i] in specs;
      AddAllCovers(list, specs);
      AddAllAppends(list, specs);
      HasNameSplit(list, added, name);
      var k :| 0 <= k < |added| && added[k].name == name;
      assert added[k] in added;
      var l' := WantedComesFromLink(site, added[k]);
      EndpointNameInjective(l.name, l'.name);
      WantedConnects(site, l');
    }
  }

  /** A successful run leaves an allowed link with an endpoint of its name that connects to it, exactly
      when the name was free or borne by such an endpoint that outlasts pruning; for any list. */
  lemma LinkServed(site: Site, ready: bool, ip: IpOracle, list: Endpoints, annotations: map<string, string>,
                   l: PrivateLink)
    requires ReconcileMcToWcApi(site, ready, ip, list, annotations).failure.None?
    requires l in AllowedLinks(site)
    ensures HasEndpoint(site, ReconcileMcToWcApi(site, ready, ip, list, annotations).list, l)
       <==> KeepsEndpoint(site, list, l)
  {
    var pruned, added := Prune(site, list), Added(list, WantedSpecs(site));
    SuccessfulPrune(site, ready, ip, list, annotations);
    AddedServes(site, list, l);
    assert HasEndpoint(site, pruned + added, l) <==> HasEndpoint(site, pruned, l) || HasEndpoint(site, added, l);
    if e :| e in pruned && IsEndpointOf(site, e, l) {
      PruneMember(site, list, e);
    }
    if i: nat :| i < |list| && IsEndpointOf(site, list[i], l) && Outlasts(site, list, i) {
      PruneMember(site, list, list[i]);
      assert list[i] in pruned;
    }
  }

  /** Every endpoint that bears the name of an allowed link connects to that link. */
  predicate NamesakesConnect(site: Site, list: Endpoints) {
    forall e, l :: e in list && l in AllowedLinks(site) && e.name == EndpointName(l.name) ==>
        ConnectsTo(site.wc, e, l.name)
  }

  lemma KeepsEndpointUnique(site: Site, list: Endpoints, l: PrivateLink)
    requires UniqueNames(list) && l in AllowedLinks(site)
    ensures KeepsEndpoint(site, list, l)
       <==> forall e :: e in list && e.name == EndpointName(l.name) ==> ConnectsTo(site.wc, e, l.name)
  {
    FilterMember(Allows(site.mc.subscriptionID), site.links, l);
    forall e | e in list && e.name == EndpointName(l.name)
      ensures KeepsEndpoint(site, list, l) <==> ConnectsTo(site.wc, e, l.name)
    {
      var j :| 0 <= j < |list| && list[j] == e;
      OutlastsUnique(site, list, j);
      if ConnectsTo(site.wc, e, l.name) {
        ConnectedIsUsed(site, e, l);
        assert IsEndpointOf(site, list[j], l) && Outlasts(site, list, j);
      }
    }
    if HasName(list, EndpointName(l.name)) {
      var j :| 0 <= j < |list| && list[j].name == EndpointName(l.name);
      assert list[j] in list;
    }
  }

  /** After a successful run on a list without duplicates, every allowed link has an endpoint of its name
      that connects to it, if and only if each endpoint that bore such a name did. */
  lemma EveryLinkServed(site: Site, ready: bool, ip: IpOracle, list: Endpoints, annotations: map<string, string>)
    requires UniqueNames(list)
    requires ReconcileMcToWcApi(site, ready, ip, list, annotations).failure.None?
    ensures (forall l :: l in AllowedLinks(site) ==>
               HasEndpoint(site, ReconcileMcToWcApi(site, ready, ip, list, annotations).list, l))
       <==> NamesakesConnect(site, list)
  {
    forall l | l in AllowedLinks(site)
      ensures HasEndpoint(site, ReconcileMcToWcApi(site, ready, ip, list, annotations).list, l)
         <==> forall e :: e in list && e.name == EndpointName(l.name) ==> ConnectsTo(site.wc, e, l.name)
    {
      LinkServed(site, ready, ip, list, annotations, l);
      KeepsEndpointUnique(site, list, l);
    }
  }

  function LastLink(site: Site): PrivateLink
    requires AllowedLinks(site) != []
  {
    AllowedLinks(site)[|AllowedLinks(site)| - 1]
  }

  /** The API server annotation holds the IP of an endpoint in the list that leads to the link. */
  predicate AnnotatesLink(site: Site, ip: IpOracle, r: Ensured, l: PrivateLink) {
    exists e :: e in r.list && IsEndpointOf(site, e, l)
                && API_SERVER_ANNOTATION in r.annotations && ip(e.name) == Ok(r.annotations[API_SERVER_ANNOTATION])
  }

  /** After a successful run the annotation holds the IP of an endpoint to the last allowed link, exactly
      when that link keeps or gets its endpoint; otherwise it is the IP of whatever bears the name. */
  lemma AnnotationLeadsToLink(site: Site, ready: bool, ip: IpOracle, list: Endpoints, annotations: map<string, string>)
    requires ReconcileMcToWcApi(site, ready, ip, list, annotations).failure.None?
    ensures AllowedLinks(site) != []
    ensures AnnotatesLink(site, ip, ReconcileMcToWcApi(site, ready, ip, list, annotations), LastLink(site))
       <==> KeepsEndpoint(site, list, LastLink(site))
  {
    var last := LastLink(site);
    var r := ReconcileMcToWcApi(site, ready, ip, list, annotations);
    SuccessfulAnnotations(site, ready, ip, list, annotations);
    LinkServed(site, ready, ip, list, annotations, last);
    assert AnnotatesLink(site, ip, r, last) <==> HasEndpoint(site, r.list, last);
  }

  /** Every allowed link has exactly one endpoint of its name, which connects to it, every endpoint to the
      workload cluster leads to an existing link, nothing added was pruned, and no endpoint with a wanted
      name or of another cluster is gone. */
  predicate Connected(site: Site, before: Endpoints, after: Endpoints) {
    && (forall l :: l in AllowedLinks(site) ==>
        CountName(after, EndpointName(l.name)) == 1 && HasEndpoint(site, after, l))
    && (forall e :: e in after && ToCluster(site.wc, e) ==> Used(site, e))
    && (forall e :: e in Added(before, WantedSpecs(site)) ==> e in after)
    && (forall e :: e in before && (Wants(site, e.name) || !ToCluster(site.wc, e)) ==> e in after)
  }

  lemma InvariantConnectsNamesakes(site: Site, list: Endpoints)
    requires ListInvariant(site, list)
    ensures NamesakesConnect(site, list)
  {
    forall l | l in AllowedLinks(site) ensures l in site.links {
      FilterMember(Allows(site.mc.subscriptionID), site.links, l);
    }
  }

  /** The promise of the operator for the list after a successful run. */
  lemma SuccessfulRun(site: Site, ready: bool, ip: IpOracle, list: Endpoints, annotations: map<string, string>)
    requires ListInvariant(site, list)
    requires ReconcileMcToWcApi(site, ready, ip, list, annotations).failure.None?
    ensures Connected(site, list, ReconcileMcToWcApi(site, ready, ip, list, annotations).list)
  {
    var after := ReconcileMcToWcApi(site, ready, ip, list, annotations).list;
    SuccessfulList(site, ready, ip, list, annotations);
    InvariantProtectsWanted(site, list);
    InvariantConnectsNamesakes(site, list);
    EveryLinkServed(site, ready, ip, list, annotations);
    forall l | l in AllowedLinks(site) ensures CountName(after, EndpointName(l.name)) == 1 {
      OwnEndpointCounts(site, after, l);
    }
    forall e | e in after && ToCluster(site.wc, e) ensures Used(site, e) {
      SuccessfulMembers(site, list, e);
    }
    forall e | e in list && (Wants(site, e.name) || !ToCluster(site.wc, e)) ensures e in after {
      FilterMember(IsKept(site), list, e);
    }
  }

  lemma OwnEndpointCounts(site: Site, list: Endpoints, l: PrivateLink)
    requires UniqueNames(list) && HasEndpoint(site, list, l)
    ensures CountName(list, EndpointName(l.name)) == 1
  {
    var e :| e in list && IsEndpointOf(site, e, l);
    var i :| 0 <= i < |list| && list[i] == e;
    UniqueCount(list, e.name);
    CountPositive(list, e.name);
  }

  lemma SuccessfulMembers(site: Site, list: Endpoints, e: PrivateEndpointSpec)
    requires e in Filter(IsKept(site), list) + Added(list, WantedSpecs(site))
    ensures !Prunable(site, e)
  {
    FilterMember(IsKept(site), list, e);
    AddedMembers(list, WantedSpecs(site));
    WantedNotPrunable(site);
  }

  // ---- deletion

  function IsNotWanted(site: Site): PrivateEndpointSpec -> bool {
    (e: PrivateEndpointSpec) => !Wants(site, e.name)
  }

  /** Without duplicates, deletion drops exactly the endpoints with wanted names. */
  lemma DeleteIsFilter(site: Site, list: Endpoints)
    requires UniqueNames(list)
    ensures DeleteMcToWcApi(site, list) == Filter(IsNotWanted(site), list)
  {
    var names := Names(WantedSpecs(site));
    RemoveAllRightmost(list, names);
    forall e | e in list ensures IsNotWanted(site)(e) <==> multiset(names)[e.name] == 0 {
      NamesCount(WantedSpecs(site), e.name);
      CountPositive(WantedSpecs(site), e.name);
    }
    SurvivorsUnique(list, multiset(names), IsNotWanted(site));
  }

  lemma DeleteLeavesNone(site: Site, list: Endpoints)
    requires UniqueNames(list)
    ensures forall e :: e in DeleteMcToWcApi(site, list) <==> e in list && !Wants(site, e.name)
  {
    DeleteIsFilter(site, list);
    forall e ensures e in DeleteMcToWcApi(site, list) <==> e in list && !Wants(site, e.name) {
      FilterMember(IsNotWanted(site), list, e);
    }
  }

  // ---- the invariant is needed

  lemma OneLink(site: Site, link: PrivateLink)
    requires site.links == [link] && Allows(site.mc.subscriptionID)(link)
    ensures AllowedLinks(site) == [link] && WantedSpecs(site) == [WantedSpec(site, link)]
  {
  }

  lemma NothingNew(list: Endpoints, spec: PrivateEndpointSpec)
    requires HasName(list, spec.name)
    ensures Added(list, [spec]) == []
  {
    assert [spec][1..] == [];
    assert Added(list, [spec]) == Added(list, []);
  }

  /** An endpoint that carries a wanted name but connects to a link that no longer exists is trusted by
      the add loop and then pruned: the run succeeds and leaves the allowed link without an endpoint. */
  lemma StaleEndpointIsLost(site: Site, link: PrivateLink, ip: IpOracle, annotations: map<string, string>)
    returns (stale: PrivateEndpointSpec)
    requires site.links == [link] && Allows(site.mc.subscriptionID)(link) && ip(EndpointName(link.name)).Ok?
    ensures stale.name == EndpointName(link.name)
    ensures ReconcileMcToWcApi(site, true, ip, [stale], annotations).failure.None?
    ensures ReconcileMcToWcApi(site, true, ip, [stale], annotations).list == []
  {
    var prefix := GroupPrefix(site.wc.subscriptionID, site.wc.resourceGroup);
    stale := PrivateEndpointSpec(EndpointName(link.name), "", [PrivateLinkServiceConnection("", prefix, "")], false);
    var list := [stale];
    OneLink(site, link);
    assert list[0].name == WantedSpec(site, link).name;
    NothingNew(list, WantedSpec(site, link));
    assert |IDOf(site.wc, link.name)| > |prefix|;
    LookupFinds(site.wc, site.links, prefix);
    assert prefix <= stale.connections[0].privateLinkServiceID;
    assert Prunable(site, stale);
    SuccessCondition(site, true, ip, list, annotations);
    SuccessfulList(site, true, ip, list, annotations);
    assert Filter(IsKept(site), list) == [];
  }

  /** An endpoint that bears the name but leads elsewhere is trusted for good: the run succeeds, leaves the
      link without an endpoint and notes the IP of the namesake. */
  lemma NamesakeIsTrusted(site: Site, link: PrivateLink, namesake: PrivateEndpointSpec, ip: IpOracle,
                          annotations: map<string, string>)
    requires site.links == [link] && Allows(site.mc.subscriptionID)(link) && ip(EndpointName(link.name)).Ok?
    requires namesake.name == EndpointName(link.name) && !ToCluster(site.wc, namesake)
    ensures ReconcileMcToWcApi(site, true, ip, [namesake], annotations)
         == Ensured([namesake], annotations[API_SERVER_ANNOTATION := ip(namesake.name).value], None)
    ensures !HasEndpoint(site, [namesake], link)
  {
    var list := [namesake];
    OneLink(site, link);
    assert list[0].name == WantedSpec(site, link).name;
    NothingNew(list, WantedSpec(site, link));
    PruneNothing(site, list);
    assert Prune(site, list) + [] == list;
    SuccessCondition(site, true, ip, list, annotations);
    SuccessfulPrune(site, true, ip, list, annotations);
    SuccessfulAnnotations(site, true, ip, list, annotations);
    if ConnectsTo(site.wc, namesake, link.name) {
      ConnectedIsUsed(site, namesake, link);
    }
  }
}
