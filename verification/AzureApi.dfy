/** What the Azure client answers for a private endpoint, and the address the operator reads out of it. */
module AzureApi {
  import opened Types
  import opened ServiceSpec

  datatype IPConfigurationProperties = IPConfigurationProperties(privateIPAddress: Option<string>)

  datatype IPConfiguration = IPConfiguration(properties: Option<IPConfigurationProperties>)

  datatype InterfaceProperties = InterfaceProperties(ipConfigurations: Option<seq<Option<IPConfiguration>>>)

  datatype NetworkInterface = NetworkInterface(properties: Option<InterfaceProperties>)

  datatype EndpointProperties = EndpointProperties(networkInterfaces: Option<seq<Option<NetworkInterface>>>)

  datatype AzureEndpoint = AzureEndpoint(properties: Option<EndpointProperties>)

  datatype Response = Found(endpoint: AzureEndpoint) | NotFound | Failed

  /** `canonical` stands for parsing an address and printing it again. */
  datatype Client = Client(get: (string, string) -> Response, canonical: string -> string)

  // ---- the flattened view of a response

  function Interfaces(e: AzureEndpoint): seq<Option<NetworkInterface>> {
    if e.properties.Some? && e.properties.value.networkInterfaces.Some?
    then e.properties.value.networkInterfaces.value else []
  }

  function Configurations(n: Option<NetworkInterface>): seq<Option<IPConfiguration>> {
    if n.Some? && n.value.properties.Some? && n.value.properties.value.ipConfigurations.Some?
    then n.value.properties.value.ipConfigurations.value else []
  }

  function Address(c: Option<IPConfiguration>): Option<string> {
    if c.Some? && c.value.properties.Some? then c.value.properties.value.privateIPAddress else None
  }

  function ConfiguredAddresses(configurations: seq<Option<IPConfiguration>>): seq<string> {
    if configurations == [] then []
    else (if Address(configurations[0]).Some? then [Address(configurations[0]).value] else [])
         + ConfiguredAddresses(configurations[1..])
  }

  function Addresses(interfaces: seq<Option<NetworkInterface>>): seq<string> {
    if interfaces == [] then [] else ConfiguredAddresses(Configurations(interfaces[0])) + Addresses(interfaces[1..])
  }

  /** The first address of the flattened response; the two failures tell no interface from no address. */
  function FirstAddress(e: AzureEndpoint): Result<string, Error> {
    if Interfaces(e) == [] then Err(NetworkInterfaceNotFound)
    else if Addresses(Interfaces(e)) == [] then Err(PrivateAddressNotFound)
    else Ok(Addresses(Interfaces(e))[0])
  }

  function EndpointIP(client: Client, group: string, name: string): Result<string, Error> {
    match client.get(group, name)
    case NotFound => Err(PrivateEndpointNotFound)
    case Failed => Err(ClientFailure)
    case Found(e) =>
      match FirstAddress(e)
      case Err(x) => Err(x)
      case Ok(a) => Ok(client.canonical(a))
  }

  function OracleOf(client: Client, group: string): IpOracle {
    (name: string) => EndpointIP(client, group, name)
  }

  /** Each answer of Azure has its own error, and all but a failed call make the controller try again. */
  lemma IPErrors(client: Client, group: string, name: string)
    ensures var response, r := client.get(group, name), EndpointIP(client, group, name);
            && (r == Err(PrivateEndpointNotFound) <==> response.NotFound?)
            && (r == Err(ClientFailure) <==> response.Failed?)
            && (r == Err(NetworkInterfaceNotFound) <==> response.Found? && Interfaces(response.endpoint) == [])
            && (r == Err(PrivateAddressNotFound) <==>
                  response.Found? && Interfaces(response.endpoint) != []
                  && Addresses(Interfaces(response.endpoint)) == [])
            && (r.Err? ==> (IsRetriable(r.error) <==> !response.Failed?))
  {
  }

  predicate HasAddress(interfaces: seq<Option<NetworkInterface>>, i: nat, j: nat) {
    i < |interfaces| && j < |Configurations(interfaces[i])| && Address(Configurations(interfaces[i])[j]).Some?
  }

  lemma {:induction false} FirstConfigured(configurations: seq<Option<IPConfiguration>>) returns (j: nat)
    ensures j <= |configurations|
    ensures forall k :: 0 <= k < j ==> Address(configurations[k]).None?
    ensures j < |configurations| ==>
              Address(configurations[j]).Some? && ConfiguredAddresses(configurations) != []
              && ConfiguredAddresses(configurations)[0] == Address(configurations[j]).value
    ensures j == |configurations| ==> ConfiguredAddresses(configurations) == []
  {
    if configurations == [] || Address(configurations[0]).Some? {
      j := 0;
    } else {
      j := FirstConfigured(configurations[1..]);
      j := j + 1;
    }
  }

  /** The address that counts is the first one present: interface by interface, configuration by configuration. */
  lemma {:induction false} FirstAddressIsFirst(interfaces: seq<Option<NetworkInterface>>) returns (i: nat, j: nat)
    ensures Addresses(interfaces) == [] <==> forall k: nat, m: nat :: !HasAddress(interfaces, k, m)
    ensures Addresses(interfaces) != [] ==>
              HasAddress(interfaces, i, j)
              && Addresses(interfaces)[0] == Address(Configurations(interfaces[i])[j]).value
              && forall k: nat, m: nat :: k < i || (k == i && m < j) ==> !HasAddress(interfaces, k, m)
    decreases |interfaces|
  {
    i, j := 0, 0;
    if interfaces != [] {
      var first, rest := Configurations(interfaces[0]), interfaces[1..];
      j := FirstConfigured(first);
      if j < |first| {
        assert HasAddress(interfaces, 0, j);
      } else {
        i, j := FirstAddressIsFirst(rest);
        forall k: nat, m: nat | HasAddress(interfaces, k, m)
          ensures k > 0 && HasAddress(rest, k - 1, m)
        {
          assert k > 0 ==> interfaces[k] == rest[k - 1];
        }
        if Addresses(rest) != [] {
          i := i + 1;
          assert interfaces[i] == rest[i - 1] && HasAddress(interfaces, i, j);
        }
      }
    }
  }

  /** No address is present earlier: in an interface before i, or in interface i before configuration j. */
  ghost predicate IsEarliest(interfaces: seq<Option<NetworkInterface>>, i: nat, j: nat) {
    HasAddress(interfaces, i, j)
    && forall k: nat, m: nat :: k < i || (k == i && m < j) ==> !HasAddress(interfaces, k, m)
  }

  lemma EarliestIsOne(interfaces: seq<Option<NetworkInterface>>, i: nat, j: nat, k: nat, m: nat)
    requires IsEarliest(interfaces, i, j) && IsEarliest(interfaces, k, m)
    ensures i == k && j == m
  {
  }

  /** The IP of an endpoint that Azure knows is the earliest address present, made canonical; without an
      address, the error tells no interface from no address. */
  lemma EarliestAddress(client: Client, group: string, name: string, e: AzureEndpoint)
    requires client.get(group, name) == Found(e)
    ensures forall i: nat, j: nat :: IsEarliest(Interfaces(e), i, j) ==>
              EndpointIP(client, group, name)
              == Ok(client.canonical(Address(Configurations(Interfaces(e)[i])[j]).value))
    ensures EndpointIP(client, group, name).Ok? <==> exists i: nat, j: nat :: IsEarliest(Interfaces(e), i, j)
    ensures EndpointIP(client, group, name).Ok? <==> exists i: nat, j: nat :: HasAddress(Interfaces(e), i, j)
    ensures EndpointIP(client, group, name).Err? ==>
              EndpointIP(client, group, name)
              == Err(if Interfaces(e) == [] then NetworkInterfaceNotFound else PrivateAddressNotFound)
  {
    var i, j := FirstAddressIsFirst(Interfaces(e));
    if Addresses(Interfaces(e)) != [] {
      assert IsEarliest(Interfaces(e), i, j);
      forall k: nat, m: nat | IsEarliest(Interfaces(e), k, m) ensures k == i && m == j {
        EarliestIsOne(Interfaces(e), i, j, k, m);
      }
    }
  }

  /** An endpoint that Azure does not know, or a call that fails. */
  lemma NoAnswer(client: Client, group: string, name: string)
    requires !client.get(group, name).Found?
    ensures EndpointIP(client, group, name)
         == Err(if client.get(group, name).NotFound? then PrivateEndpointNotFound else ClientFailure)
  {
  }
}
