/** pkg/privateendpoints/scope.go and pkg/privatelinks/scope.go */
module Scopes {
  import opened Types
  import opened Sequences
  import opened ResourceIds
  import opened PrivateLinks
  import opened Conditions
  import opened EndpointLists
  import opened ServiceSpec
  import opened EndpointSlices
  import opened ClusterObjects
  import opened AzureApi
  import Util

  /** Works on the endpoint list of one cluster object. */
  class EndpointsScope {
    const cluster: ClusterInfo
    const endpoints: EndpointSlice
    const client: Client

    constructor (cluster: ClusterInfo, endpoints: EndpointSlice, client: Client)
      ensures this.cluster == cluster && this.endpoints == endpoints && this.client == client
    {
      this.cluster := cluster;
      this.endpoints := endpoints;
      this.client := client;
    }

    method GetPrivateEndpointIPAddress(name: string) returns (r: Result<string, Error>)
      ensures r == EndpointIP(client, cluster.resourceGroup, name)
    {
      var response := client.get(cluster.resourceGroup, name);
      if response.NotFound? {
        return Err(PrivateEndpointNotFound);
      } else if response.Failed? {
        return Err(ClientFailure);
      }
      var endpoint := response.endpoint;
      if endpoint.properties.None? || endpoint.properties.value.networkInterfaces.None?
          || |endpoint.properties.value.networkInterfaces.value| == 0 {
        return Err(NetworkInterfaceNotFound);
      }
      var interfaces := endpoint.properties.value.networkInterfaces.value;
      var found, result := false, "";
      var i := 0;
      while i < |interfaces|
        invariant 0 <= i <= |interfaces|
        invariant !found && Addresses(interfaces) == Addresses(interfaces[i..])
      {
        var n := interfaces[i];
        assert interfaces[i..][0] == n && interfaces[i..][1..] == interfaces[i + 1..];
        i := i + 1;
        if n.None? || n.value.properties.None? || n.value.properties.value.ipConfigurations.None?
            || |n.value.properties.value.ipConfigurations.value| == 0 {
          continue;
        }
        var configurations := n.value.properties.value.ipConfigurations.value;
        var j := 0;
        while j < |configurations|
          invariant 0 <= j <= |configurations|
          invariant !found && ConfiguredAddresses(configurations) == ConfiguredAddresses(configurations[j..])
        {
          var c := configurations[j];
          assert configurations[j..][0] == c && configurations[j..][1..] == configurations[j + 1..];
          j := j + 1;
          if c.None? || c.value.properties.None? || c.value.properties.value.privateIPAddress.None? {
            continue;
          }
          result := client.canonical(c.value.properties.value.privateIPAddress.value);
          found := true;
          break;
        }
        if found {
          break;
        }
      }
      if found {
        return Ok(result);
      } else {
        return Err(PrivateAddressNotFound);
      }
    }

    /** The result has an array of its own, so later removals from the list do not reach it. */
    method GetPrivateEndpointsToWorkloadCluster(wc: ClusterInfo) returns (toCluster: EndpointSlice)
      requires endpoints.Valid()
      ensures fresh(toCluster) && fresh(toCluster.data) && toCluster.Valid()
      ensures toCluster.Contents() == Filter(IsToCluster(wc), endpoints.Contents())
    {
      var prefix := GroupPrefix(wc.subscriptionID, wc.resourceGroup);
      toCluster := new EndpointSlice([]);
      ghost var all := endpoints.Contents();
      for i := 0 to endpoints.length
        invariant fresh(toCluster) && fresh(toCluster.data) && toCluster.Valid()
        invariant toCluster.Contents() == Filter(IsToCluster(wc), all[..i])
      {
        var e := endpoints.data[i];
        var found := false;
        var j := 0;
        while j < |e.connections|
          invariant 0 <= j <= |e.connections| && !found
          invariant forall k :: 0 <= k < j ==> !(prefix <= e.connections[k].privateLinkServiceID)
        {
          if prefix <= e.connections[j].privateLinkServiceID {
            found := true;
            break;
          }
          j := j + 1;
        }
        assert found == ToCluster(wc, e);
        assert all[..i + 1] == all[..i] + [e];
        FilterAppend(IsToCluster(wc), all[..i], [e]);
        if found {
          toCluster.Append(e);
        }
      }
      assert all[..|all|] == all;
    }

    method ContainsPrivateEndpointSpec(spec: PrivateEndpointSpec) returns (found: bool)
      requires endpoints.Valid()
      ensures found == HasName(endpoints.Contents(), spec.name)
    {
      for i := 0 to endpoints.length
        invariant forall k :: 0 <= k < i ==> endpoints.data[k].name != spec.name
      {
        if endpoints.data[i].name == spec.name {
          assert endpoints.Contents()[i].name == spec.name;
          return true;
        }
      }
      return false;
    }

    method AddPrivateEndpointSpec(spec: PrivateEndpointSpec)
      requires endpoints.Valid()
      modifies endpoints, endpoints.data
      ensures endpoints.Valid() && (endpoints.data == old(endpoints.data) || fresh(endpoints.data))
      ensures endpoints.Contents() == AddSpec(old(endpoints.Contents()), spec)
    {
      var found := ContainsPrivateEndpointSpec(spec);
      if !found {
        endpoints.Append(spec);
      }
    }

    method RemovePrivateEndpointByName(name: string)
      requires endpoints.Valid()
      modifies endpoints`length, endpoints.data
      ensures endpoints.Valid()
      ensures endpoints.Contents() == RemoveByName(old(endpoints.Contents()), name)
    {
      ghost var before := endpoints.Contents();
      var i := endpoints.length;
      while i > 0
        invariant 0 <= i <= endpoints.length == |before| && endpoints.Valid() && endpoints.Contents() == before
        invariant !HasName(before[i..], name)
      {
        i := i - 1;
        assert before[i..][1..] == before[i + 1..];
        HasNameHead(before[i..], name);
        if endpoints.data[i].name == name {
          RemoveRightmost(before, i);
          endpoints.RemoveAt(i);
          return;
        }
      }
      assert before[0..] == before;
      RemoveAbsent(before, name);
    }
  }

  /** Reads the private links of the workload cluster and writes its annotations and conditions. */
  class LinksScope {
    const wc: ClusterObject
    const privateLinks: seq<PrivateLink>

    constructor (wc: ClusterObject)
      ensures this.wc == wc && privateLinks == wc.stored.privateLinks
    {
      this.wc := wc;
      privateLinks := wc.stored.privateLinks;
    }

    method LookupPrivateLink(id: string) returns (link: Option<PrivateLink>)
      ensures link == FirstWithID(wc.stored.info, privateLinks, id)
    {
      var i := 0;
      while i < |privateLinks|
        invariant 0 <= i <= |privateLinks|
        invariant FirstWithID(wc.stored.info, privateLinks, id) == FirstWithID(wc.stored.info, privateLinks[i..], id)
      {
        assert privateLinks[i..][0] == privateLinks[i] && privateLinks[i..][1..] == privateLinks[i + 1..];
        if IDOf(wc.stored.info, privateLinks[i].name) == id {
          return Some(privateLinks[i]);
        }
        i := i + 1;
      }
      return None;
    }

    method GetPrivateLinksWithAllowedSubscription(subscription: string) returns (allowed: seq<PrivateLink>)
      ensures allowed == Allowed(privateLinks, subscription)
    {
      allowed := [];
      for i := 0 to |privateLinks|
        invariant allowed == Allowed(privateLinks[..i], subscription)
      {
        var contains := Util.ContainsPtr(privateLinks[i].allowedSubscriptions, subscription);
        assert privateLinks[..i + 1] == privateLinks[..i] + [privateLinks[i]];
        FilterAppend(Allows(subscription), privateLinks[..i], [privateLinks[i]]);
        if contains {
          allowed := allowed + [privateLinks[i]];
        }
      }
      assert privateLinks[..|privateLinks|] == privateLinks;
    }

    method PrivateLinksReady() returns (ready: bool)
      ensures ready == IsTrue(wc.conditions, PRIVATE_LINKS_READY)
    {
      ready := wc.IsConditionTrue(PRIVATE_LINKS_READY);
    }

    method SetPrivateEndpointIPAddressForWcApi(ip: string)
      modifies wc`annotations
      ensures wc.annotations == old(wc.annotations)[API_SERVER_ANNOTATION := ip]
    {
      wc.SetAnnotation(API_SERVER_ANNOTATION, ip);
    }

    method SetPrivateEndpointIPAddressForMcIngress(ip: string)
      modifies wc`annotations
      ensures wc.annotations == old(wc.annotations)[MC_INGRESS_ANNOTATION := ip]
    {
      wc.SetAnnotation(MC_INGRESS_ANNOTATION, ip);
    }
  }
}
