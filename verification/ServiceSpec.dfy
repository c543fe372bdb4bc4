/** What one run of the private endpoints service does to the lists and records, as functions. */
module ServiceSpec {
  import opened Types
  import opened Sequences
  import opened ResourceIds
  import opened PrivateLinks
  import opened Conditions
  import opened EndpointLists
  import Util

  /** What Azure answers for a private endpoint name during one run. */
  type IpOracle = string -> Result<string, Error>

  /** The fixed facts of a management cluster facing a workload cluster. */
  datatype Site = Site(mc: ClusterInfo, wc: ClusterInfo, links: seq<PrivateLink>)

  // ---- wanted endpoints

  function EndpointName(link: string): string {
    link + "-privateendpoint"
  }

  function RequestMessage(site: Site): string {
    "Giant Swarm azure-private-endpoint-operator that is running in management cluster " + site.mc.id.name
    + " created private endpoint in order to access private workload cluster " + site.wc.id.name
  }

  predicate ManualApproval(site: Site, link: PrivateLink) {
    forall i :: 0 <= i < |link.autoApprovedSubscriptions| ==>
        Util.Deref(link.autoApprovedSubscriptions[i]) != site.mc.subscriptionID
  }

  function WantedSpec(site: Site, link: PrivateLink): PrivateEndpointSpec {
    var manual := ManualApproval(site, link);
    PrivateEndpointSpec(
      EndpointName(link.name),
      site.mc.location,
      [PrivateLinkServiceConnection(
         link.name + "-connection",
         IDOf(site.wc, link.name),
         if manual then RequestMessage(site) else "")],
      manual)
  }

  function AllowedLinks(site: Site): seq<PrivateLink> {
    Allowed(site.links, site.mc.subscriptionID)
  }

  function WantedSpecs(site: Site): (specs: Endpoints)
    ensures |specs| == |AllowedLinks(site)|
    ensures forall i :: 0 <= i < |specs| ==> specs[i] == WantedSpec(site, AllowedLinks(site)[i])
  {
    seq(|AllowedLinks(site)|, i requires 0 <= i < |AllowedLinks(site)| => WantedSpec(site, AllowedLinks(site)[i]))
  }

  function Names(list: Endpoints): (names: seq<string>)
    ensures |names| == |list|
    ensures forall i :: 0 <= i < |list| ==> names[i] == list[i].name
  {
    if list == [] then [] else [list[0].name] + Names(list[1..])
  }

  predicate Wants(site: Site, name: string) {
    HasName(WantedSpecs(site), name)
  }

  // ---- adding endpoints and waiting for their IPs

  datatype Ensured = Ensured(list: Endpoints, annotations: map<string, string>, failure: Option<Error>)

  /** Add each spec, ask for its IP and note it under `key`; the first missing IP ends the run, keeping what
      was done. */
  function EnsureEndpoints(specs: Endpoints, key: string, ip: IpOracle, list: Endpoints,
                           annotations: map<string, string>): Ensured
    decreases |specs|
  {
    if specs == [] then Ensured(list, annotations, None)
    else
      var next := AddSpec(list, specs[0]);
      match ip(specs[0].name)
      case Err(e) => Ensured(next, annotations, Some(e))
      case Ok(address) => EnsureEndpoints(specs[1..], key, ip, next, annotations[key := address])
  }

  // ---- pruning

  predicate ToCluster(wc: ClusterInfo, e: PrivateEndpointSpec) {
    exists i :: 0 <= i < |e.connections|
        && GroupPrefix(wc.subscriptionID, wc.resourceGroup) <= e.connections[i].privateLinkServiceID
  }

  predicate Used(site: Site, e: PrivateEndpointSpec) {
    exists i :: 0 <= i < |e.connections|
        && FirstWithID(site.wc, site.links, e.connections[i].privateLinkServiceID).Some?
  }

  predicate Prunable(site: Site, e: PrivateEndpointSpec) {
    ToCluster(site.wc, e) && !Used(site, e)
  }

  function IsToCluster(wc: ClusterInfo): PrivateEndpointSpec -> bool {
    (e: PrivateEndpointSpec) => ToCluster(wc, e)
  }

  function IsPrunable(site: Site): PrivateEndpointSpec -> bool {
    (e: PrivateEndpointSpec) => Prunable(site, e)
  }

  function IsKept(site: Site): PrivateEndpointSpec -> bool {
    (e: PrivateEndpointSpec) => !Prunable(site, e)
  }

  function PrunedNames(site: Site, list: Endpoints): seq<string> {
    Names(Filter(IsPrunable(site), list))
  }

  function Prune(site: Site, list: Endpoints): Endpoints {
    RemoveAll(list, PrunedNames(site, list))
  }

  // ---- the three operations

  function ReconcileMcToWcApi(site: Site, ready: bool, ip: IpOracle, list: Endpoints,
                              annotations: map<string, string>): Ensured {
    if AllowedLinks(site) == [] then Ensured(list, annotations, Some(SubscriptionCannotConnectToPrivateLink))
    else if !ready then Ensured(list, annotations, Some(PrivateLinksNotReady))
    else
      var r := EnsureEndpoints(WantedSpecs(site), API_SERVER_ANNOTATION, ip, list, annotations);
      if r.failure.Some? then r else r.(list := Prune(site, r.list))
  }

  /** Appends the condition unless the first one of its type is already true. */
  function MarkReady(conditions: seq<Condition>): seq<Condition> {
    if IsTrue(conditions, GS_PRIVATE_LINKS_READY) then conditions
    else conditions + [Condition(GS_PRIVATE_LINKS_READY, ConditionTrue)]
  }

  datatype Ingress = Ingress(ensured: Ensured, conditions: seq<Condition>)

  function ReconcileWcToMcIngress(specs: Endpoints, ip: IpOracle, list: Endpoints, annotations: map<string, string>,
                                  conditions: seq<Condition>): Ingress {
    var r := EnsureEndpoints(specs, MC_INGRESS_ANNOTATION, ip, list, annotations);
    Ingress(r, if r.failure.Some? then conditions else MarkReady(conditions))
  }

  function DeleteMcToWcApi(site: Site, list: Endpoints): Endpoints {
    RemoveAll(list, Names(WantedSpecs(site)))
  }

  // ---- closed form of the add loop

  function FirstFailure(specs: Endpoints, ip: IpOracle): (k: nat)
    ensures k <= |specs|
    ensures k < |specs| ==> ip(specs[k].name).Err?
    ensures forall i :: 0 <= i < k ==> ip(specs[i].name).Ok?
  {
    if specs == [] then 0
    else if ip(specs[0].name).Err? then 0
    else 1 + FirstFailure(specs[1..], ip)
  }

  /** The specs that the loop gets to: all before the first missing IP, and that one. */
  function Tried(specs: Endpoints, ip: IpOracle): Endpoints {
    if FirstFailure(specs, ip) < |specs| then specs[..FirstFailure(specs, ip) + 1] else specs
  }

  lemma TriedStep(specs: Endpoints, ip: IpOracle)
    requires specs != []
    ensures ip(specs[0].name).Err? ==> Tried(specs, ip) == [specs[0]]
    ensures ip(specs[0].name).Ok? ==> Tried(specs, ip) == [specs[0]] + Tried(specs[1..], ip)
  {
    if ip(specs[0].name).Err? {
      assert specs[..1] == [specs[0]];
    } else {
      var k := FirstFailure(specs[1..], ip);
      if k < |specs[1..]| {
        assert specs[..k + 2] == [specs[0]] + specs[1..][..k + 1];
      } else {
        assert specs == [specs[0]] + specs[1..];
      }
    }
  }

  /** The loop adds exactly the specs it gets to. */
  lemma {:induction false} EnsureAdds(specs: Endpoints, key: string, ip: IpOracle, list: Endpoints,
                                      annotations: map<string, string>)
    ensures EnsureEndpoints(specs, key, ip, list, annotations).list == AddAll(list, Tried(specs, ip))
    decreases |specs|
  {
    if specs != [] {
      var next := AddSpec(list, specs[0]);
      TriedStep(specs, ip);
      var rest := if ip(specs[0].name).Err? then [] else Tried(specs[1..], ip);
      assert Tried(specs, ip) == [specs[0]] + rest;
      assert ([specs[0]] + rest)[1..] == rest;
      assert AddAll(list, Tried(specs, ip)) == AddAll(next, rest);
      if ip(specs[0].name).Ok? {
        EnsureAdds(specs[1..], key, ip, next, annotations[key := ip(specs[0].name).value]);
      }
    }
  }

  /** It fails exactly when some IP is missing, with the error of the first one. */
  lemma {:induction false} EnsureFails(specs: Endpoints, key: string, ip: IpOracle, list: Endpoints,
                                       annotations: map<string, string>)
    ensures EnsureEndpoints(specs, key, ip, list, annotations).failure ==
            var k := FirstFailure(specs, ip);
            if k < |specs| then Some(ip(specs[k].name).error) else None
    decreases |specs|
  {
    if specs != [] && ip(specs[0].name).Ok? {
      EnsureFails(specs[1..], key, ip, AddSpec(list, specs[0]), annotations[key := ip(specs[0].name).value]);
    }
  }

  /** The annotation ends up with the IP of the last spec that had one. */
  lemma {:induction false} EnsureNotes(specs: Endpoints, key: string, ip: IpOracle, list: Endpoints,
                                       annotations: map<string, string>)
    ensures EnsureEndpoints(specs, key, ip, list, annotations).annotations ==
            var k := FirstFailure(specs, ip);
            if k == 0 then annotations else annotations[key := ip(specs[k - 1].name).value]
    decreases |specs|
  {
    if specs != [] && ip(specs[0].name).Ok? {
      var first := ip(specs[0].name).value;
      EnsureNotes(specs[1..], key, ip, AddSpec(list, specs[0]), annotations[key := first]);
      var k := FirstFailure(specs[1..], ip);
      if k > 0 {
        var last := ip(specs[1..][k - 1].name).value;
        assert annotations[key := first][key := last] == annotations[key := last];
      }
    }
  }
}
